/** The durable outbox: two tables, a byte ledger, and transactions that commit
    or change nothing. */
module HistorySpools {
  import opened Wrappers
  import opened Decimal
  import opened Numbers
  import opened Sequences

  const MAX_BATCH_SIZE: nat := 128
  const MAX_BATCH_BYTES: nat := 1_048_576

  /** A history event; `encodedBytes` is the length of its serialized form. */
  datatype Event = Event(streamId: string, sequence: nat, body: string, encodedBytes: nat)
  {
    /** The text of the UNIQUE event_id column. */
    function IdText(): string
    {
      streamId + ":" + Digits(sequence)
    }

    /** What that text stands for. */
    function Id(): EventId
    {
      EventId(streamId, sequence)
    }
  }

  datatype EventId = EventId(streamId: string, sequence: nat)

  /** Id texts collide only for one stream and one number, whatever the stream
      names look like, so uniqueness of the text is uniqueness of `Id`. */
  lemma IdTextIsFaithful(a: Event, b: Event)
    ensures a.IdText() == b.IdText() <==> a.Id() == b.Id()
  {
    if a.IdText() == b.IdText() {
      TaggedNumberFaithful(a.streamId, a.sequence, b.streamId, b.sequence);
    }
  }

  datatype Row = Row(id: nat, event: Event)

  /** The database: rows by ascending id, and the single state row's counters. */
  datatype Spool = Spool(maxBytes: nat, nextId: nat, outbox: seq<Row>, quarantined: seq<Event>,
                         pendingBytes: int, quarantinedBytes: int)

  function Events(rows: seq<Row>): (es: seq<Event>)
    ensures |es| == |rows| && forall i | 0 <= i < |rows| :: es[i] == rows[i].event
  {
    seq(|rows|, i requires 0 <= i < |rows| => rows[i].event)
  }

  function Bytes(events: seq<Event>): nat
  {
    if events == [] then 0 else events[0].encodedBytes + Bytes(events[1..])
  }

  predicate Holds(events: seq<Event>, id: EventId)
  {
    exists i | 0 <= i < |events| :: events[i].Id() == id
  }

  // ---------------------------------------------------------- transactions

  /** INSERT OR IGNORE on the unique event id. */
  function Insert(sp: Spool, e: Event): Spool
  {
    if Holds(Events(sp.outbox), e.Id()) then sp
    else sp.(outbox := sp.outbox + [Row(sp.nextId, e)], nextId := sp.nextId + 1)
  }

  function InsertAll(sp: Spool, events: seq<Event>): Spool
    decreases events
  {
    if events == [] then sp else InsertAll(Insert(sp, events[0]), events[1..])
  }

  /** Of a list of events, those that an insertion would add, in order. */
  function NewOnes(stored: seq<Event>, events: seq<Event>): seq<Event>
    decreases events
  {
    if events == [] then []
    else if Holds(stored, events[0].Id()) then NewOnes(stored, events[1..])
    else [events[0]] + NewOnes(stored + [events[0]], events[1..])
  }

  function Persisted(sp: Spool, events: seq<Event>): Result<Spool, string>
  {
    var added := Bytes(NewOnes(Events(sp.outbox), events));
    if Max(0, sp.pendingBytes + sp.quarantinedBytes) + added > sp.maxBytes then Failure("history spool quota reached")
    else Success(InsertAll(sp, events).(pendingBytes := sp.pendingBytes + added))
  }

  /** How many more rows `load_batch` returns, behind `loaded` rows of `bytes` bytes. */
  function MoreRows(rows: seq<Row>, limit: nat, loaded: nat, bytes: nat): (n: nat)
    ensures n <= limit && n <= |rows|
  {
    if rows == [] || limit == 0 then 0
    else if loaded > 0 && bytes + rows[0].event.encodedBytes > MAX_BATCH_BYTES then 0
    else 1 + MoreRows(rows[1..], limit - 1, loaded + 1, bytes + rows[0].event.encodedBytes)
  }

  lemma {:induction false} MoreRowsFit(rows: seq<Row>, limit: nat, loaded: nat, bytes: nat)
    ensures var n := MoreRows(rows, limit, loaded, bytes);
            && (n > 0 && loaded + n > 1 ==> bytes + Bytes(Events(rows[..n])) <= MAX_BATCH_BYTES)
            && (n < limit && n < |rows| ==> loaded + n > 0 && bytes + Bytes(Events(rows[..n + 1])) > MAX_BATCH_BYTES)
    decreases |rows|
  {
    if rows != [] && limit > 0 {
      BytesOfFirst(rows, 0);
      if !(loaded > 0 && bytes + rows[0].event.encodedBytes > MAX_BATCH_BYTES) {
        MoreRowsFit(rows[1..], limit - 1, loaded + 1, bytes + rows[0].event.encodedBytes);
        var n := MoreRows(rows, limit, loaded, bytes);
        BytesOfFirst(rows, n - 1);
        if n < |rows| {
          BytesOfFirst(rows, n);
        }
      }
    }
  }

  lemma BytesOfFirst(rows: seq<Row>, n: nat)
    requires n < |rows|
    ensures Bytes(Events(rows[..n + 1])) == rows[0].event.encodedBytes + Bytes(Events(rows[1..][..n]))
  {
    assert Events(rows[..n + 1])[1..] == Events(rows[1..][..n]);
  }

  /** How many rows `load_batch` returns: never more than the limit, after the first
      row never beyond the byte ceiling, and no fewer than these two allow. */
  function BatchLength(rows: seq<Row>, limit: nat): (n: nat)
    ensures n <= limit && n <= |rows| && (limit > 0 && rows != [] ==> n > 0)
    ensures n > 1 ==> Bytes(Events(rows[..n])) <= 1_048_576
    ensures n < limit && n < |rows| ==> Bytes(Events(rows[..n + 1])) > 1_048_576
  {
    MoreRowsFit(rows, limit, 0, 0);
    MoreRows(rows, limit, 0, 0)
  }

  function Batch(sp: Spool, limit: nat): seq<Row>
  {
    sp.outbox[..BatchLength(sp.outbox, limit)]
  }

  function WithoutRow(rows: seq<Row>, id: nat): seq<Row>
  {
    if rows == [] then [] else if rows[0].id == id then rows[1..] else [rows[0]] + WithoutRow(rows[1..], id)
  }

  predicate HasRow(rows: seq<Row>, id: nat)
  {
    exists i | 0 <= i < |rows| :: rows[i].id == id
  }

  function WithoutRows(rows: seq<Row>, batch: seq<Row>): seq<Row>
    decreases batch
  {
    if batch == [] then rows else WithoutRows(WithoutRow(rows, batch[0].id), batch[1..])
  }

  /** The bytes of the batch rows that a removal finds. */
  function FoundBytes(rows: seq<Row>, batch: seq<Row>): nat
    decreases batch
  {
    if batch == [] then 0
    else (if HasRow(rows, batch[0].id) then batch[0].event.encodedBytes else 0)
         + FoundBytes(WithoutRow(rows, batch[0].id), batch[1..])
  }

  function Acknowledged(sp: Spool, batch: seq<Row>): Spool
  {
    sp.(outbox := WithoutRows(sp.outbox, batch),
        pendingBytes := Max(0, sp.pendingBytes - FoundBytes(sp.outbox, batch)))
  }

  function RowEvent(rows: seq<Row>, id: nat): Option<Event>
  {
    if rows == [] then None else if rows[0].id == id then Some(rows[0].event) else RowEvent(rows[1..], id)
  }

  function Quarantined(sp: Spool, row: Row): Spool
  {
    var stored := RowEvent(sp.outbox, row.id);
    var inserted := stored.Some? && !Holds(sp.quarantined, stored.value.Id());
    sp.(outbox := WithoutRow(sp.outbox, row.id),
        quarantined := if inserted then sp.quarantined + [stored.value] else sp.quarantined,
        pendingBytes := Max(0, sp.pendingBytes - if stored.Some? then row.event.encodedBytes else 0),
        quarantinedBytes := sp.quarantinedBytes + if inserted then row.event.encodedBytes else 0)
  }

  /** What `prepare` does to an existing database, under a possibly new quota. */
  function Reopened(sp: Spool, maxBytes: nat): Spool
  {
    sp.(maxBytes := maxBytes, pendingBytes := Bytes(Events(sp.outbox)), quarantinedBytes := Bytes(sp.quarantined))
  }

  // -------------------------------------------------------------- the ledger

  predicate Ascending(rows: seq<Row>, nextId: nat)
  {
    && (forall i, j | 0 <= i < j < |rows| :: rows[i].id < rows[j].id)
    && (forall i | 0 <= i < |rows| :: rows[i].id < nextId)
  }

  predicate Distinct(events: seq<Event>)
  {
    forall i, j | 0 <= i < j < |events| :: events[i].Id() != events[j].Id()
  }

  /** Ids ascend, event ids are unique, and both counters are their tables' sums. */
  predicate Ledger(sp: Spool)
  {
    && Ascending(sp.outbox, sp.nextId)
    && Distinct(Events(sp.outbox))
    && sp.pendingBytes == Bytes(Events(sp.outbox))
    && sp.quarantinedBytes == Bytes(sp.quarantined)
  }

  function Total(sp: Spool): int
  {
    sp.pendingBytes + sp.quarantinedBytes
  }

  lemma {:induction false} BytesAppend(a: seq<Event>, b: seq<Event>)
    ensures Bytes(a + b) == Bytes(a) + Bytes(b)
  {
    if a == [] {
      assert a + b == b;
    } else {
      assert (a + b)[1..] == a[1..] + b;
      BytesAppend(a[1..], b);
    }
  }

  lemma InsertOne(sp: Spool, e: Event)
    requires Ascending(sp.outbox, sp.nextId) && Distinct(Events(sp.outbox))
    ensures var sp' := Insert(sp, e);
            && Ascending(sp'.outbox, sp'.nextId) && Distinct(Events(sp'.outbox))
            && Events(sp'.outbox) == Events(sp.outbox) + (if Holds(Events(sp.outbox), e.Id()) then [] else [e])
  {
    var before, after := Events(sp.outbox), Events(Insert(sp, e).outbox);
    if Holds(before, e.Id()) {
      assert before + [] == before;
    } else {
      assert after == before + [e];
      forall i, j | 0 <= i < j < |after|
        ensures after[i].Id() != after[j].Id()
      {
        assert i < |before| && after[i] == before[i];
      }
    }
  }

  /** Inserting a list appends exactly its new events, in order. */
  lemma {:induction false} InsertAllAppendsNewOnes(sp: Spool, events: seq<Event>)
    requires Ascending(sp.outbox, sp.nextId) && Distinct(Events(sp.outbox))
    ensures var sp' := InsertAll(sp, events);
            && Ascending(sp'.outbox, sp'.nextId) && Distinct(Events(sp'.outbox))
            && Events(sp'.outbox) == Events(sp.outbox) + NewOnes(Events(sp.outbox), events)
    decreases |events|
  {
    var stored := Events(sp.outbox);
    if events == [] {
      assert stored + [] == stored;
    } else {
      InsertOne(sp, events[0]);
      InsertAllAppendsNewOnes(Insert(sp, events[0]), events[1..]);
      var rest := NewOnes(stored + [events[0]], events[1..]);
      assert stored + [events[0]] + rest == stored + ([events[0]] + rest);
      assert stored + [] == stored;
    }
  }

  lemma {:induction false} InsertAllOnlyAppends(sp: Spool, events: seq<Event>)
    ensures var sp' := InsertAll(sp, events);
            sp.outbox <= sp'.outbox && sp' == sp.(outbox := sp'.outbox, nextId := sp'.nextId)
    decreases |events|
  {
    if events != [] {
      InsertAllOnlyAppends(Insert(sp, events[0]), events[1..]);
    }
  }

  /** A committed batch keeps the ledger exact and the quota; it is refused
      exactly when its new bytes do not fit, and then nothing has changed. */
  lemma PersistKeepsLedger(sp: Spool, events: seq<Event>)
    requires Ledger(sp)
    ensures Persisted(sp, events).Failure? <==> Total(sp) + Bytes(NewOnes(Events(sp.outbox), events)) > sp.maxBytes
    ensures Persisted(sp, events).Success? ==>
              var sp' := Persisted(sp, events).value;
              && Ledger(sp') && Total(sp') <= sp'.maxBytes == sp.maxBytes && sp.outbox <= sp'.outbox
              && Events(sp'.outbox) == Events(sp.outbox) + NewOnes(Events(sp.outbox), events)
              && sp'.quarantined == sp.quarantined
  {
    InsertAllAppendsNewOnes(sp, events);
    InsertAllOnlyAppends(sp, events);
    BytesAppend(Events(sp.outbox), NewOnes(Events(sp.outbox), events));
  }

  lemma {:induction false} NothingNew(sp: Spool, events: seq<Event>)
    requires forall i | 0 <= i < |events| :: Holds(Events(sp.outbox), events[i].Id())
    ensures NewOnes(Events(sp.outbox), events) == [] && InsertAll(sp, events) == sp
    decreases |events|
  {
    if events != [] {
      NothingNew(sp, events[1..]);
    }
  }

  /** Persisting again what the outbox already holds changes nothing. */
  lemma RepersistChangesNothing(sp: Spool, events: seq<Event>)
    requires Ledger(sp) && Total(sp) <= sp.maxBytes
    requires forall i | 0 <= i < |events| :: Holds(Events(sp.outbox), events[i].Id())
    ensures Persisted(sp, events) == Success(sp)
  {
    NothingNew(sp, events);
  }

  lemma {:induction false} AllNew(stored: seq<Event>, events: seq<Event>)
    requires Distinct(stored + events)
    ensures NewOnes(stored, events) == events
    decreases |events|
  {
    if events != [] {
      var all := stored + events;
      assert all[|stored|] == events[0];
      forall i | 0 <= i < |stored|
        ensures stored[i].Id() != events[0].Id()
      {
        assert all[i] == stored[i];
      }
      assert stored + [events[0]] + events[1..] == all;
      AllNew(stored + [events[0]], events[1..]);
    }
  }

  /** Removing a row drops it and its bytes, if it is there. */
  lemma {:induction false} WithoutRowDrops(rows: seq<Row>, nextId: nat, id: nat)
    requires Ascending(rows, nextId)
    ensures !HasRow(rows, id) ==> WithoutRow(rows, id) == rows && RowEvent(rows, id) == None
    ensures forall i | 0 <= i < |rows| && rows[i].id == id ::
              WithoutRow(rows, id) == rows[..i] + rows[i + 1..] && RowEvent(rows, id) == Some(rows[i].event)
    decreases |rows|
  {
    if rows != [] {
      WithoutRowDrops(rows[1..], nextId, id);
      forall i | 0 <= i < |rows| && rows[i].id == id
        ensures WithoutRow(rows, id) == rows[..i] + rows[i + 1..] && RowEvent(rows, id) == Some(rows[i].event)
      {
        if i > 0 {
          assert rows[1..][i - 1] == rows[i];
          assert rows[..i] == [rows[0]] + rows[1..][..i - 1];
          assert rows[1..][i - 1 + 1..] == rows[i + 1..];
        }
      }
      if !HasRow(rows, id) {
        assert forall i | 0 <= i < |rows| - 1 :: rows[1..][i] == rows[i + 1];
        assert rows == [rows[0]] + rows[1..];
      }
    }
  }

  lemma {:induction false} WithoutPrefix(rows: seq<Row>, n: nat)
    requires n <= |rows|
    ensures WithoutRows(rows, rows[..n]) == rows[n..] && FoundBytes(rows, rows[..n]) == Bytes(Events(rows[..n]))
    decreases n
  {
    if n > 0 {
      assert rows[..n][1..] == rows[1..][..n - 1];
      assert rows[1..][n - 1..] == rows[n..];
      WithoutPrefix(rows[1..], n - 1);
      assert Events(rows[..n]) == [rows[0].event] + Events(rows[1..][..n - 1]);
    }
  }

  /** Acknowledging a loaded batch removes exactly that prefix; the counter stays
      exact without the clamp at zero ever being used. */
  lemma AcknowledgeKeepsLedger(sp: Spool, n: nat)
    requires Ledger(sp) && n <= |sp.outbox|
    ensures var sp' := Acknowledged(sp, sp.outbox[..n]);
            && Ledger(sp') && sp'.outbox == sp.outbox[n..] && Total(sp') <= Total(sp)
                && sp'.quarantined == sp.quarantined
            && sp.pendingBytes - FoundBytes(sp.outbox, sp.outbox[..n]) >= 0
  {
    WithoutPrefix(sp.outbox, n);
    SuffixIsOrdered(sp, n);
  }

  lemma SuffixIsOrdered(sp: Spool, n: nat)
    requires Ledger(sp) && n <= |sp.outbox|
    ensures Ascending(sp.outbox[n..], sp.nextId) && Distinct(Events(sp.outbox[n..]))
    ensures Events(sp.outbox[n..]) == Events(sp.outbox)[n..]
    ensures Bytes(Events(sp.outbox)) == Bytes(Events(sp.outbox[..n])) + Bytes(Events(sp.outbox[n..]))
  {
    var all := Events(sp.outbox);
    assert Events(sp.outbox[..n]) == all[..n] && Events(sp.outbox[n..]) == all[n..];
    assert all == all[..n] + all[n..];
    BytesAppend(all[..n], all[n..]);
    DistinctSuffix(all, n);
  }

  lemma DistinctSuffix(events: seq<Event>, n: nat)
    requires Distinct(events) && n <= |events|
    ensures Distinct(events[n..])
  {
    forall i, j | 0 <= i < j < |events| - n
      ensures events[n..][i].Id() != events[n..][j].Id()
    {
      assert events[n..][i] == events[n + i] && events[n..][j] == events[n + j];
    }
  }

  /** Quarantining the front row moves it, or drops it if its id is already
      quarantined; the total never grows and the clamp is never used. */
  lemma QuarantineKeepsLedger(sp: Spool)
    requires Ledger(sp) && sp.outbox != []
    ensures var e := sp.outbox[0].event;
            var sp' := Quarantined(sp, sp.outbox[0]);
            && Ledger(sp') && sp'.outbox == sp.outbox[1..] && Total(sp') <= Total(sp)
            && sp'.quarantined == sp.quarantined + (if Holds(sp.quarantined, e.Id()) then [] else [e])
            && sp.pendingBytes - e.encodedBytes >= 0
  {
    var e := sp.outbox[0].event;
    SuffixIsOrdered(sp, 1);
    BytesAppend(sp.quarantined, [e]);
    assert sp.quarantined + [] == sp.quarantined;
    assert Bytes([e]) == e.encodedBytes;
  }

  /** Recomputing the counters when the database is opened again is the identity. */
  lemma ReopenIsIdentity(sp: Spool)
    ensures Ledger(sp) ==> Reopened(sp, sp.maxBytes) == sp
    ensures Ascending(sp.outbox, sp.nextId) && Distinct(Events(sp.outbox)) ==> Ledger(Reopened(sp, sp.maxBytes))
  {
  }
}
