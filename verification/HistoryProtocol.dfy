/** Publishers, the group-commit writer and the uploader, interleaved step by
    step in any order, with failures at every point where one can occur and
    restarts of the whole process at any time. */
module HistoryProtocol {
  import opened Wrappers
  import opened HistorySpools
  import opened Numbers
  import opened Sequences

  const WRITER_CHANNEL_CAPACITY: nat := 128

  /** A publisher's lock: the next sequence number, and the event it is waiting
      to have confirmed while it holds the lock. */
  datatype Stream = Stream(next: nat, inFlight: Option<Event>)

  /** A writer that retries does not know whether its batch is stored: a commit can
      fail, and it can be durable and still be reported as failed. */
  datatype Writer =
    | Idle
    | Collecting(batch: seq<Event>)
    | Retrying(batch: seq<Event>)
    | Confirming(rest: seq<Event>)

  datatype Uploader = Looking | Sending(batch: seq<Row>) | Acking(batch: seq<Row>) | Isolated(row: Row)

  /** `log` lists every insertion ever committed, `accepted` everything the sink took,
      `confirmed` every event whose publisher was told it is durable, `begun`
      every stream opened so far. */
  datatype Protocol = Protocol(
    streams: map<string, Stream>, channel: seq<Event>, writer: Writer, spool: Spool, uploader: Uploader, limit: nat,
    log: seq<Event>, accepted: seq<Event>, confirmed: seq<Event>, begun: set<string>)

  datatype Step =
    | OpenStream(id: string)
    | Publish(id: string, body: string, encodedBytes: nat)
    | Collect
    | Commit
    | CommitUnheard
    | CommitFails
    | Confirm
    | Load
    | Wait
    | DeliverAccepted
    | DeliverAcceptedUnheard
    | DeliverFails
    | DeliverRejected
    | AcknowledgeCommits
    | AcknowledgeUnheard
    | AcknowledgeFails
    | QuarantineCommits
    | QuarantineUnheard
    | QuarantineFails
    | Restart

  predicate Mentions(events: seq<Event>, id: string)
  {
    exists i | 0 <= i < |events| :: events[i].streamId == id
  }

  /** The writer has a batch to commit. */
  predicate HasBatch(w: Writer)
  {
    w.Collecting? || w.Retrying?
  }

  function InHand(w: Writer): seq<Event>
  {
    if HasBatch(w) then w.batch else []
  }

  function Uncommitted(p: Protocol): seq<Event>
  {
    InHand(p.writer) + p.channel
  }

  /** Every event numbered so far, in the order in which it is or will be stored. */
  function Pipeline(p: Protocol): seq<Event>
  {
    p.log + Uncommitted(p)
  }

  /** Every event whose publisher is still waiting. */
  function Unconfirmed(p: Protocol): seq<Event>
  {
    (if p.writer.Confirming? then p.writer.rest else []) + Uncommitted(p)
  }

  /** The batch is durable; what the writer does next depends on what it is told. */
  function Stored(p: Protocol, next: Writer): Protocol
    requires HasBatch(p.writer) && Persisted(p.spool, p.writer.batch).Success?
  {
    p.(spool := Persisted(p.spool, p.writer.batch).value, writer := next,
       log := p.log + NewOnes(Events(p.spool.outbox), p.writer.batch))
  }

  /** One step, or None where it is not enabled. */
  function Apply(p: Protocol, step: Step): Option<Protocol>
  {
    match step
    case OpenStream(id) =>
      if id in p.streams || Mentions(Pipeline(p), id) then None
      else Some(p.(streams := p.streams[id := Stream(1, None)], begun := p.begun + {id}))
    case Publish(id, body, encodedBytes) =>
      if id !in p.streams || p.streams[id].inFlight.Some? || |p.channel| >= WRITER_CHANNEL_CAPACITY then None
      else
        var e := Event(id, p.streams[id].next, body, encodedBytes);
        Some(p.(streams := p.streams[id := Stream(e.sequence + 1, Some(e))], channel := p.channel + [e]))
    case Collect =>
      if p.channel == [] then None
      else if p.writer.Idle? then Some(p.(writer := Collecting([p.channel[0]]), channel := p.channel[1..]))
      else if p.writer.Collecting? && |p.writer.batch| < MAX_BATCH_SIZE then
        Some(p.(writer := Collecting(p.writer.batch + [p.channel[0]]), channel := p.channel[1..]))
      else None
    case Commit =>
      if HasBatch(p.writer) && Persisted(p.spool, p.writer.batch).Success?
          then Some(Stored(p, Confirming(p.writer.batch))) else None
    case CommitUnheard =>
      if HasBatch(p.writer) && Persisted(p.spool, p.writer.batch).Success?
          then Some(Stored(p, Retrying(p.writer.batch))) else None
    case CommitFails => if HasBatch(p.writer) then Some(p.(writer := Retrying(p.writer.batch))) else None
    case Confirm =>
      if !p.writer.Confirming? then None
      else if p.writer.rest == [] then Some(p.(writer := Idle))
      else
        var e := p.writer.rest[0];
        Some(p.(writer := Confirming(p.writer.rest[1..]), confirmed := p.confirmed + [e],
                streams := if e.streamId in p.streams
                           then p.streams[e.streamId := p.streams[e.streamId].(inFlight := None)] else p.streams))
    case Load =>
      if p.uploader.Looking? && Batch(p.spool, p.limit) != []
          then Some(p.(uploader := Sending(Batch(p.spool, p.limit)))) else None
    case Wait =>
      if p.uploader.Looking? && Batch(p.spool, p.limit) == [] then Some(p.(limit := MAX_BATCH_SIZE)) else None
    case DeliverAccepted =>
      if p.uploader.Sending? then Some(p.(accepted := p.accepted + Events(p.uploader.batch),
                                          uploader := Acking(p.uploader.batch)))
      else None
    case DeliverAcceptedUnheard =>
      if p.uploader.Sending? then Some(p.(accepted := p.accepted + Events(p.uploader.batch), uploader := Looking))
          else None
    case DeliverFails => if p.uploader.Sending? then Some(p.(uploader := Looking)) else None
    case DeliverRejected =>
      if !p.uploader.Sending? then None
      else if |p.uploader.batch| > 1 then Some(p.(uploader := Looking, limit := Max(|p.uploader.batch| / 2, 1)))
      else if |p.uploader.batch| == 1 then Some(p.(uploader := Isolated(p.uploader.batch[0])))
      else None
    case AcknowledgeCommits =>
      if p.uploader.Acking? then
        Some(p.(spool := Acknowledged(p.spool, p.uploader.batch), uploader := Looking, limit := MAX_BATCH_SIZE))
      else None
    case AcknowledgeUnheard =>
      if p.uploader.Acking?
          then Some(p.(spool := Acknowledged(p.spool, p.uploader.batch), uploader := Looking)) else None
    case AcknowledgeFails => if p.uploader.Acking? then Some(p.(uploader := Looking)) else None
    case QuarantineCommits =>
      if p.uploader.Isolated? then
        Some(p.(spool := Quarantined(p.spool, p.uploader.row), uploader := Looking, limit := MAX_BATCH_SIZE))
      else None
    case QuarantineUnheard =>
      if p.uploader.Isolated?
          then Some(p.(spool := Quarantined(p.spool, p.uploader.row), uploader := Looking)) else None
    case QuarantineFails => if p.uploader.Isolated? then Some(p.(uploader := Looking)) else None
    case Restart =>
      // Everything in memory is gone; the database is opened again.
      Some(p.(streams := map[], channel := [], writer := Idle, spool := Reopened(p.spool, p.spool.maxBytes),
              uploader := Looking, limit := MAX_BATCH_SIZE))
  }

  // -------------------------------------------------------------- invariant

  /** The events of one stream, in order. */
  function OfStream(id: string, events: seq<Event>): seq<Event>
  {
    if events == [] then []
    else if events[0].streamId == id then [events[0]] + OfStream(id, events[1..])
    else OfStream(id, events[1..])
  }

  /** Sequence numbers 1, 2, 3, ... without a gap, and each once or several times in
      a row. */
  predicate Steady(events: seq<Event>)
    decreases |events|
  {
    events == [] ||
    var before, e := events[..|events| - 1], events[|events| - 1];
    Steady(before) && (e.sequence == Last(before) + 1 || (before != [] && e.sequence == Last(before)))
  }

  /** Sequence numbers 1, 2, 3, ..., each once. */
  predicate Numbered(events: seq<Event>)
  {
    forall i | 0 <= i < |events| :: events[i].sequence == i + 1
  }

  function Last(events: seq<Event>): nat
  {
    if events == [] then 0 else events[|events| - 1].sequence
  }

  /** An id stands for one event. */
  ghost predicate Consistent(events: seq<Event>)
  {
    forall a, b | a in events && b in events && a.Id() == b.Id() :: a == b
  }

  /** One stream: its own events are numbered without a gap up to the next
      number, and the only one still waiting is the one in flight. */
  ghost predicate StreamOk(st: Stream, own: seq<Event>, waiting: seq<Event>)
  {
    && Steady(own) && Last(own) + 1 == st.next
    && waiting == match st.inFlight case None => [] case Some(e) => [e]
  }

  ghost predicate StreamsOk(streams: map<string, Stream>, pipeline: seq<Event>, unconfirmed: seq<Event>)
  {
    && (forall id | id in streams :: StreamOk(streams[id], OfStream(id, pipeline), OfStream(id, unconfirmed)))
    && (forall i | 0 <= i < |unconfirmed| :: unconfirmed[i].streamId in streams)
  }

  /** The streams of earlier processes have left no gap either. */
  ghost predicate LostOk(begun: set<string>, streams: map<string, Stream>, log: seq<Event>)
  {
    streams.Keys <= begun && forall id | id in begun && id !in streams :: Steady(OfStream(id, log))
  }

  /** The outbox holds the end of the log; what came before it has been accepted
      or its id quarantined. */
  ghost predicate OutboxOk(log: seq<Event>, sp: Spool, accepted: seq<Event>)
  {
    && |sp.outbox| <= |log| && Events(sp.outbox) == log[|log| - |sp.outbox|..]
    && forall i | 0 <= i < |log| - |sp.outbox| :: log[i] in accepted || Holds(sp.quarantined, log[i].Id())
  }

  ghost predicate UploaderOk(u: Uploader, sp: Spool, accepted: seq<Event>)
  {
    match u
    case Looking => true
    case Sending(batch) => batch != [] && batch <= sp.outbox
    case Acking(batch) => batch <= sp.outbox && AllIn(Events(batch), accepted)
    case Isolated(row) => sp.outbox != [] && row == sp.outbox[0]
  }

  predicate AllIn(events: seq<Event>, log: seq<Event>)
  {
    forall i | 0 <= i < |events| :: events[i] in log
  }

  lemma AllInMore(events: seq<Event>, log: seq<Event>, more: seq<Event>)
    ensures AllIn(events, log) ==> AllIn(events, log + more)
    ensures AllIn(more, log + more)
  {
    assert forall i | 0 <= i < |more| :: (log + more)[|log| + i] == more[i];
  }

  ghost predicate Inv(p: Protocol)
  {
    && Ledger(p.spool) && Total(p.spool) <= p.spool.maxBytes
    && OutboxOk(p.log, p.spool, p.accepted)
    && Consistent(Pipeline(p))
    && StreamsOk(p.streams, Pipeline(p), Unconfirmed(p)) && LostOk(p.begun, p.streams, p.log)
    && UploaderOk(p.uploader, p.spool, p.accepted)
    && (p.writer.Confirming? ==> AllIn(p.writer.rest, p.log))
    && AllIn(p.confirmed, p.log)
  }

  /** A queue opened on a database that is within its quota. */
  ghost predicate Init(p: Protocol)
  {
    && p.streams == map[] && p.channel == [] && p.writer == Idle && p.uploader == Looking && p.limit == MAX_BATCH_SIZE
    && Ledger(p.spool) && Total(p.spool) <= p.spool.maxBytes
    && p.log == Events(p.spool.outbox) && p.accepted == [] && p.confirmed == [] && p.begun == {}
  }

  lemma InitEstablishes(p: Protocol)
    requires Init(p)
    ensures Inv(p)
  {
    assert Pipeline(p) == p.log;
  }

  lemma {:induction false} OfStreamAppend(id: string, a: seq<Event>, b: seq<Event>)
    ensures OfStream(id, a + b) == OfStream(id, a) + OfStream(id, b)
  {
    if a == [] {
      assert a + b == b;
    } else {
      OfStreamAppend(id, a[1..], b);
      assert a + b == [a[0]] + (a[1..] + b) && (a + b)[1..] == a[1..] + b;
      if a[0].streamId == id {
        Assoc([a[0]], OfStream(id, a[1..]), OfStream(id, b));
      }
    }
  }

  lemma {:induction false} OfStreamHas(id: string, events: seq<Event>, e: Event)
    ensures e in OfStream(id, events) <==> e in events && e.streamId == id
  {
    if events != [] {
      OfStreamHas(id, events[1..], e);
      assert e in events <==> e == events[0] || e in events[1..];
    }
  }

  lemma {:induction false} OfStreamNone(id: string, events: seq<Event>)
    requires !Mentions(events, id)
    ensures OfStream(id, events) == []
  {
    if events != [] {
      assert forall i | 0 <= i < |events| - 1 :: events[1..][i] == events[i + 1];
      OfStreamNone(id, events[1..]);
    }
  }

  lemma {:induction false} SteadyBounds(events: seq<Event>)
    requires Steady(events)
    ensures forall i | 0 <= i < |events| :: 1 <= events[i].sequence <= Last(events)
  {
    if events != [] {
      var before := events[..|events| - 1];
      SteadyBounds(before);
      assert forall i | 0 <= i < |before| :: events[i] == before[i];
    }
  }

  lemma SteadyStep(events: seq<Event>, e: Event)
    ensures Steady(events + [e]) <==>
            && Steady(events)
            && (e.sequence == Last(events) + 1 || (events != [] && e.sequence == Last(events)))
  {
    assert (events + [e])[..|events|] == events;
  }

  predicate HasNumber(events: seq<Event>, n: nat)
  {
    exists e :: e in events && e.sequence == n
  }

  /** Every number up to the last is there. */
  lemma {:induction false} SteadyHasAll(events: seq<Event>, n: nat)
    requires Steady(events) && 1 <= n <= Last(events)
    ensures HasNumber(events, n)
  {
    var before, e := events[..|events| - 1], events[|events| - 1];
    assert events == before + [e];
    if n < e.sequence {
      SteadyHasAll(before, n);
      var x :| x in before && x.sequence == n;
      assert x in events;
    } else {
      assert e in events;
    }
  }

  /** No event of the pipeline has the number a stream is about to use, or a later one. */
  lemma NextIsLatest(p: Protocol, id: string, a: Event)
    requires Inv(p) && id in p.streams && a in Pipeline(p) && a.streamId == id
    ensures a.sequence < p.streams[id].next
  {
    OfStreamHas(id, Pipeline(p), a);
    SteadyBounds(OfStream(id, Pipeline(p)));
  }

  lemma NextIsFresh(p: Protocol, e: Event)
    requires Inv(p) && e.streamId in p.streams && e.sequence == p.streams[e.streamId].next
    ensures Consistent(Pipeline(p) + [e])
  {
    var all := Pipeline(p);
    forall a | a in all
      ensures a.Id() != e.Id()
    {
      if a.streamId == e.streamId {
        NextIsLatest(p, e.streamId, a);
      }
    }
    FreshIsConsistent(all, e);
  }

  lemma FreshIsConsistent(events: seq<Event>, e: Event)
    requires Consistent(events) && forall a | a in events :: a.Id() != e.Id()
    ensures Consistent(events + [e])
  {
  }

  // ---------------------------------------------------- what each step keeps

  lemma OpenStreamKeeps(p: Protocol, id: string)
    requires Inv(p) && Apply(p, OpenStream(id)).Some?
    ensures Inv(Apply(p, OpenStream(id)).value)
  {
    OpenKeepsStreams(p.streams, Pipeline(p), Unconfirmed(p), id);
    var p' := Apply(p, OpenStream(id)).value;
    assert Pipeline(p') == Pipeline(p) && Unconfirmed(p') == Unconfirmed(p);
  }

  lemma OpenKeepsStreams(streams: map<string, Stream>, pipeline: seq<Event>, unconfirmed: seq<Event>, id: string)
    requires StreamsOk(streams, pipeline, unconfirmed) && id !in streams && !Mentions(pipeline, id)
    ensures StreamsOk(streams[id := Stream(1, None)], pipeline, unconfirmed)
  {
    OfStreamNone(id, pipeline);
    OfStreamNone(id, unconfirmed);
  }

  lemma PublishAppends(p: Protocol, p': Protocol, e: Event)
    requires p' == p.(streams := p'.streams, channel := p.channel + [e])
    ensures Pipeline(p') == Pipeline(p) + [e] && Unconfirmed(p') == Unconfirmed(p) + [e]
  {
  }

  lemma PublishKeeps(p: Protocol, id: string, body: string, encodedBytes: nat)
    requires Inv(p) && Apply(p, Publish(id, body, encodedBytes)).Some?
    ensures Inv(Apply(p, Publish(id, body, encodedBytes)).value)
  {
    var p' := Apply(p, Publish(id, body, encodedBytes)).value;
    var e := Event(id, p.streams[id].next, body, encodedBytes);
    PublishAppends(p, p', e);
    NextIsFresh(p, e);
    PublishKeepsStreams(p.streams, Pipeline(p), Unconfirmed(p), e);
  }

  lemma PublishKeepsStreams(streams: map<string, Stream>, pipeline: seq<Event>, unconfirmed: seq<Event>, e: Event)
    requires StreamsOk(streams, pipeline, unconfirmed)
    requires e.streamId in streams && streams[e.streamId] == Stream(e.sequence, None)
    ensures StreamsOk(streams[e.streamId := Stream(e.sequence + 1, Some(e))], pipeline + [e], unconfirmed + [e])
  {
    var streams' := streams[e.streamId := Stream(e.sequence + 1, Some(e))];
    forall s | s in streams'
      ensures StreamOk(streams'[s], OfStream(s, pipeline + [e]), OfStream(s, unconfirmed + [e]))
    {
      assert StreamOk(streams[s], OfStream(s, pipeline), OfStream(s, unconfirmed));
      OfStreamAppend(s, pipeline, [e]);
      OfStreamAppend(s, unconfirmed, [e]);
      assert OfStream(s, [e]) == if s == e.streamId then [e] else [];
      if s == e.streamId {
        SteadyStep(OfStream(s, pipeline), e);
      } else {
        assert OfStream(s, pipeline) + [] == OfStream(s, pipeline);
        assert OfStream(s, unconfirmed) + [] == OfStream(s, unconfirmed);
      }
    }
  }

  lemma CollectKeeps(p: Protocol)
    requires Inv(p) && Apply(p, Collect).Some?
    ensures Inv(Apply(p, Collect).value)
  {
    var p' := Apply(p, Collect).value;
    assert Uncommitted(p') == Uncommitted(p);
    assert Pipeline(p') == Pipeline(p) && Unconfirmed(p') == Unconfirmed(p);
  }

  // --------------------------------------------------------- a batch is stored

  /** The events a commit inserts are those of the batch that are not there. */
  lemma {:induction false} NewOnesAre(stored: seq<Event>, events: seq<Event>)
    ensures forall e | e in NewOnes(stored, events) :: e in events
    ensures forall e | e in events :: Holds(stored, e.Id()) || Holds(NewOnes(stored, events), e.Id())
    decreases events
  {
    if events != [] {
      var head, rest, known := events[0], events[1..], Holds(stored, events[0].Id());
      var stored' := if known then stored else stored + [head];
      NewOnesAre(stored', rest);
      var new' := NewOnes(stored', rest);
      assert events == [head] + rest;
      if !known {
        HoldsAppend(stored, head);
        HoldsTail(head, new');
      }
    }
  }

  lemma HoldsAppend(events: seq<Event>, e: Event)
    ensures forall id :: Holds(events + [e], id) <==> Holds(events, id) || id == e.Id()
  {
    forall id
      ensures Holds(events + [e], id) <==> Holds(events, id) || id == e.Id()
    {
      if Holds(events, id) {
        var i :| 0 <= i < |events| && events[i].Id() == id;
        assert (events + [e])[i].Id() == id;
      }
      assert (events + [e])[|events|] == e;
    }
  }

  lemma HoldsTail(e: Event, events: seq<Event>)
    ensures forall id :: Holds([e] + events, id) <==> id == e.Id() || Holds(events, id)
  {
    forall id
      ensures Holds([e] + events, id) <==> id == e.Id() || Holds(events, id)
    {
      if Holds(events, id) {
        var i :| 0 <= i < |events| && events[i].Id() == id;
        assert ([e] + events)[i + 1].Id() == id;
      }
      assert ([e] + events)[0] == e;
    }
  }

  /** Of a stream with one event in the batch, that event is inserted unless it is
      there; of other streams, nothing. */
  lemma {:induction false} NewOnesOfStream(id: string, stored: seq<Event>, events: seq<Event>)
    requires |OfStream(id, events)| <= 1
    ensures var own := OfStream(id, events);
            OfStream(id, NewOnes(stored, events))
              == if own == [] || Holds(stored, own[0].Id()) then [] else own
    decreases events
  {
    if events != [] {
      var head, rest := events[0], events[1..];
      HoldsAppend(stored, head);
      if Holds(stored, head.Id()) {
        NewOnesOfStream(id, stored, rest);
      } else {
        NewOnesOfStream(id, stored + [head], rest);
        assert [head] + NewOnes(stored + [head], rest) == NewOnes(stored, events);
        if head.streamId != id && OfStream(id, rest) != [] {
          OfStreamHas(id, rest, OfStream(id, rest)[0]);
        }
      }
    }
  }

  /** What the streams make of it, whether the batch stays in hand or not: an event
      that was stored before may now be logged a second time, next to itself. */
  lemma StreamStored(st: Stream, id: string, log: seq<Event>, stored: seq<Event>, batch: seq<Event>,
                     channel: seq<Event>)
    requires StreamOk(st, OfStream(id, log + (batch + channel)), OfStream(id, batch + channel))
    requires Consistent(log + (batch + channel)) && forall e | e in stored :: e in log
    ensures var added := NewOnes(stored, batch);
            && StreamOk(st, OfStream(id, log + added + channel), OfStream(id, batch + channel))
            && StreamOk(st, OfStream(id, log + added + (batch + channel)), OfStream(id, batch + channel))
  {
    var added := NewOnes(stored, batch);
    var l, b, c, n := OfStream(id, log), OfStream(id, batch), OfStream(id, channel), OfStream(id, added);
    OfStreamAppend(id, batch, channel);
    OfStreamAppend(id, log, batch + channel);
    OfStreamAppend(id, log, added);
    OfStreamAppend(id, log + added, channel);
    OfStreamAppend(id, log + added, batch + channel);
    assert |b + c| <= 1;
    NewOnesOfStream(id, stored, batch);
    if b != [] {
      assert b == [b[0]] && l + (b + c) == l + [b[0]];
      if n == [] {
        StoredIsLast(id, log, stored, batch, channel, b[0]);
      }
    }
    StreamLoggedAgain(st, l, b, c, n);
  }

  lemma StreamLoggedAgain(st: Stream, l: seq<Event>, b: seq<Event>, c: seq<Event>, n: seq<Event>)
    requires StreamOk(st, l + (b + c), b + c) && (n == [] || n == b)
    requires b != [] && n == [] ==> l != [] && Last(l) == b[0].sequence
    ensures StreamOk(st, l + n + c, b + c) && StreamOk(st, l + n + (b + c), b + c)
  {
    if b == [] {
      assert l + n + c == l + (b + c) == l + n + (b + c);
    } else {
      var e := b[0];
      assert b == [e] && c == [] && l + (b + c) == l + [e];
      SteadyStep(l, e);
      SteadyStep(l + [e], e);
      if n == [] {
        assert l + n + c == l && l + n + (b + c) == l + [e];
      } else {
        assert l + n + c == l + [e] && l + n + (b + c) == l + [e] + [e];
      }
    }
  }

  /** A stored event that is in hand still is its stream's last. */
  lemma StoredIsLast(id: string, log: seq<Event>, stored: seq<Event>, batch: seq<Event>, channel: seq<Event>, e: Event)
    requires Consistent(log + (batch + channel)) && forall x | x in stored :: x in log
    requires OfStream(id, batch) == [e] && Steady(OfStream(id, log) + [e]) && Holds(stored, e.Id())
    ensures Last(OfStream(id, log)) == e.sequence && OfStream(id, log) != []
  {
    OfStreamHas(id, batch, e);
    var i :| 0 <= i < |stored| && stored[i].Id() == e.Id();
    assert stored[i] in log && stored[i] == e;
    var l := OfStream(id, log);
    OfStreamHas(id, log, e);
    SteadyStep(l, e);
    SteadyBounds(l);
  }

  lemma StoredKeepsStreams(streams: map<string, Stream>, log: seq<Event>, stored: seq<Event>, batch: seq<Event>,
                           channel: seq<Event>)
    requires StreamsOk(streams, log + (batch + channel), batch + channel)
    requires Consistent(log + (batch + channel)) && forall e | e in stored :: e in log
    ensures var added := NewOnes(stored, batch);
            && StreamsOk(streams, log + added + channel, batch + channel)
            && StreamsOk(streams, log + added + (batch + channel), batch + channel)
  {
    forall id | id in streams
      ensures var added := NewOnes(stored, batch);
              && StreamOk(streams[id], OfStream(id, log + added + channel), OfStream(id, batch + channel))
              && StreamOk(streams[id], OfStream(id, log + added + (batch + channel)), OfStream(id, batch + channel))
    {
      StreamStored(streams[id], id, log, stored, batch, channel);
    }
  }

  lemma StoredPipeline(p: Protocol, next: Writer)
    requires HasBatch(p.writer) && Persisted(p.spool, p.writer.batch).Success?
    requires next == Confirming(p.writer.batch) || next == Retrying(p.writer.batch)
    ensures var p', batch := Stored(p, next), p.writer.batch;
            && Unconfirmed(p') == Unconfirmed(p) == batch + p.channel
            && Pipeline(p') == if next.Confirming? then p'.log + p.channel else p'.log + (batch + p.channel)
  {
  }

  lemma OutboxIsLogged(p: Protocol)
    requires OutboxOk(p.log, p.spool, p.accepted)
    ensures forall e | e in Events(p.spool.outbox) :: e in p.log
  {
    var k := |p.log| - |p.spool.outbox|;
    assert forall i | 0 <= i < |p.spool.outbox| :: Events(p.spool.outbox)[i] == p.log[k..][i] == p.log[k + i];
  }

  /** Every event of the batch is in the log afterwards, and nothing that was not in
      the pipeline before. */
  lemma StoredIsLogged(p: Protocol)
    requires Inv(p) && HasBatch(p.writer)
    ensures var added := NewOnes(Events(p.spool.outbox), p.writer.batch);
            && AllIn(p.writer.batch, p.log + added) && (forall e | e in added :: e in p.writer.batch)
            && (forall e | e in p.log + added :: e in Pipeline(p))
  {
    var batch, stored := p.writer.batch, Events(p.spool.outbox);
    var added := NewOnes(stored, batch);
    NewOnesAre(stored, batch);
    OutboxIsLogged(p);
    assert forall e | e in batch :: e in Pipeline(p);
    forall e | e in batch
      ensures e in p.log + added
    {
      if Holds(stored, e.Id()) {
        var i :| 0 <= i < |stored| && stored[i].Id() == e.Id();
        assert stored[i] in p.log && stored[i] in Pipeline(p);
      } else {
        var i :| 0 <= i < |added| && added[i].Id() == e.Id();
        assert added[i] in batch;
      }
    }
  }

  /** Storing a batch, for the first time or again, keeps the invariant, whether the
      writer learns of it or not. */
  lemma StoredKeeps(p: Protocol, next: Writer)
    requires Inv(p) && HasBatch(p.writer) && Persisted(p.spool, p.writer.batch).Success?
    requires next == Confirming(p.writer.batch) || next == Retrying(p.writer.batch)
    ensures Inv(Stored(p, next))
  {
    var added := NewOnes(Events(p.spool.outbox), p.writer.batch);
    PersistKeepsLedger(p.spool, p.writer.batch);
    OutboxIsLogged(p);
    StoredPipeline(p, next);
    StoredKeepsStreams(p.streams, p.log, Events(p.spool.outbox), p.writer.batch, p.channel);
    StoredIsLogged(p);
    StoredKeepsLost(p, added);
    StoredIsOk(p, Stored(p, next), added);
  }

  lemma StoredIsOk(p: Protocol, p': Protocol, added: seq<Event>)
    requires Inv(p) && HasBatch(p.writer)
    requires p' == p.(spool := p'.spool, writer := p'.writer, log := p.log + added)
    requires p'.writer == Confirming(p.writer.batch) || p'.writer == Retrying(p.writer.batch)
    requires Ledger(p'.spool) && Total(p'.spool) <= p'.spool.maxBytes && p.spool.outbox <= p'.spool.outbox
    requires Events(p'.spool.outbox) == Events(p.spool.outbox) + added
             && p'.spool.quarantined == p.spool.quarantined
    requires StreamsOk(p'.streams, Pipeline(p'), Unconfirmed(p')) && LostOk(p'.begun, p'.streams, p'.log)
    requires AllIn(p.writer.batch, p'.log) && forall e | e in p'.log :: e in Pipeline(p)
    ensures Inv(p')
  {
    assert forall e | e in Pipeline(p') :: e in Pipeline(p) by {
      assert forall e | e in Uncommitted(p') :: e in Uncommitted(p);
    }
    AppendKeepsOutbox(p.log, p.spool, p'.spool, p.accepted, added);
    AllInMore(p.confirmed, p.log, added);
    UploaderStaysOk(p.uploader, p.spool, p'.spool, p.accepted);
  }

  /** Only streams of this process are in a batch. */
  lemma StoredKeepsLost(p: Protocol, added: seq<Event>)
    requires Inv(p) && HasBatch(p.writer) && forall e | e in added :: e in p.writer.batch
    ensures LostOk(p.begun, p.streams, p.log + added)
  {
    forall id | id in p.begun && id !in p.streams
      ensures OfStream(id, p.log + added) == OfStream(id, p.log)
    {
      OfStreamAppend(id, p.log, added);
      forall i | 0 <= i < |added|
        ensures added[i].streamId != id
      {
        assert added[i] in Unconfirmed(p);
      }
      OfStreamNone(id, added);
      assert OfStream(id, p.log) + [] == OfStream(id, p.log);
    }
  }

  /** Once the writer has heard of a commit, every event of its batch is in the log;
      none is mistaken for one that is already there. */
  lemma CommitKeeps(p: Protocol)
    requires Inv(p) && Apply(p, Commit).Some?
    ensures Inv(Apply(p, Commit).value)
    ensures AllIn(p.writer.batch, Apply(p, Commit).value.log)
    ensures Distinct(Pipeline(p)) ==> Apply(p, Commit).value.log == p.log + p.writer.batch
  {
    StoredKeeps(p, Confirming(p.writer.batch));
    StoredIsLogged(p);
    if Distinct(Pipeline(p)) {
      BatchIsNew(p);
    }
  }

  lemma CommitFailsKeeps(p: Protocol)
    requires Inv(p) && Apply(p, CommitFails).Some?
    ensures Inv(Apply(p, CommitFails).value) && Pipeline(Apply(p, CommitFails).value) == Pipeline(p)
  {
    var p' := Apply(p, CommitFails).value;
    assert Pipeline(p') == Pipeline(p) && Unconfirmed(p') == Unconfirmed(p);
  }

  lemma UploaderStaysOk(u: Uploader, sp: Spool, sp': Spool, accepted: seq<Event>)
    requires UploaderOk(u, sp, accepted) && sp.outbox <= sp'.outbox
    ensures UploaderOk(u, sp', accepted)
  {
  }

  lemma AppendKeepsOutbox(log: seq<Event>, sp: Spool, sp': Spool, accepted: seq<Event>, batch: seq<Event>)
    requires OutboxOk(log, sp, accepted)
    requires Events(sp'.outbox) == Events(sp.outbox) + batch && sp'.quarantined == sp.quarantined
    ensures OutboxOk(log + batch, sp', accepted)
  {
    var removed := |log| - |sp.outbox|;
    assert |sp'.outbox| == |Events(sp'.outbox)| == |sp.outbox| + |batch|;
    assert (log + batch)[removed..] == log[removed..] + batch;
    assert forall i | 0 <= i < removed :: (log + batch)[i] == log[i];
  }

  lemma ConfirmKeeps(p: Protocol)
    requires Inv(p) && Apply(p, Confirm).Some?
    ensures Inv(Apply(p, Confirm).value)
  {
    var p' := Apply(p, Confirm).value;
    if p.writer.rest == [] {
      assert Pipeline(p') == Pipeline(p) && Unconfirmed(p') == Unconfirmed(p);
    } else {
      var e := p.writer.rest[0];
      ConfirmDropsOne(p);
      ConfirmKeepsStreams(p.streams, Pipeline(p), e, Unconfirmed(p'));
      ConfirmedIsOk(p, p', e);
    }
  }

  lemma ConfirmDropsOne(p: Protocol)
    requires p.writer.Confirming? && p.writer.rest != []
    ensures Apply(p, Confirm).Some? && Unconfirmed(p) == [p.writer.rest[0]] + Unconfirmed(Apply(p, Confirm).value)
  {
  }

  lemma ConfirmedIsOk(p: Protocol, p': Protocol, e: Event)
    requires Inv(p) && p.writer.Confirming? && p.writer.rest != [] && e == p.writer.rest[0]
    requires p' == p.(writer := Confirming(p.writer.rest[1..]), confirmed := p.confirmed + [e], streams := p'.streams)
    requires StreamsOk(p'.streams, Pipeline(p), Unconfirmed(p')) && p'.streams.Keys == p.streams.Keys
    ensures Inv(p')
  {
    assert Pipeline(p') == Pipeline(p);
    assert forall i | 0 <= i < |p.writer.rest| - 1 :: p'.writer.rest[i] == p.writer.rest[i + 1];
  }

  lemma ConfirmKeepsStreams(streams: map<string, Stream>, pipeline: seq<Event>, e: Event, rest: seq<Event>)
    requires StreamsOk(streams, pipeline, [e] + rest)
    ensures e.streamId in streams
    ensures StreamsOk(streams[e.streamId := streams[e.streamId].(inFlight := None)], pipeline, rest)
  {
    var all := [e] + rest;
    assert all[0] == e && forall i | 0 <= i < |rest| :: all[i + 1] == rest[i];
    var streams' := streams[e.streamId := streams[e.streamId].(inFlight := None)];
    forall s | s in streams'
      ensures StreamOk(streams'[s], OfStream(s, pipeline), OfStream(s, rest))
    {
      assert StreamOk(streams[s], OfStream(s, pipeline), OfStream(s, all));
      assert all[1..] == rest;
    }
  }

  /** Taking n rows off the front, each accepted or quarantined, keeps the outbox
      the end of the log. */
  lemma RemovalKeepsOutbox(p: Protocol, sp: Spool, n: nat)
    requires Inv(p) && n <= |p.spool.outbox| && sp.outbox == p.spool.outbox[n..]
    requires p.spool.quarantined <= sp.quarantined
    requires forall i | 0 <= i < n ::
               p.spool.outbox[i].event in p.accepted || Holds(sp.quarantined, p.spool.outbox[i].event.Id())
    ensures OutboxOk(p.log, sp, p.accepted)
  {
    var removed := |p.log| - |p.spool.outbox|;
    assert Events(sp.outbox) == p.log[removed + n..];
    forall i | 0 <= i < removed + n
      ensures p.log[i] in p.accepted || Holds(sp.quarantined, p.log[i].Id())
    {
      if i < removed {
        HoldsMore(p.spool.quarantined, sp.quarantined, p.log[i].Id());
      } else {
        assert p.log[i] == p.log[removed..][i - removed] == p.spool.outbox[i - removed].event;
      }
    }
  }

  lemma HoldsMore(a: seq<Event>, b: seq<Event>, id: EventId)
    requires a <= b
    ensures Holds(a, id) ==> Holds(b, id)
  {
    if Holds(a, id) {
      var i :| 0 <= i < |a| && a[i].Id() == id;
      assert b[i].Id() == id;
    }
  }

  lemma RemovalKeeps(p: Protocol, sp: Spool, limit: nat, n: nat)
    requires Inv(p) && n <= |p.spool.outbox| && sp.outbox == p.spool.outbox[n..]
    requires Ledger(sp) && Total(sp) <= Total(p.spool) && sp.maxBytes == p.spool.maxBytes
    requires p.spool.quarantined <= sp.quarantined
    requires forall i | 0 <= i < n ::
               p.spool.outbox[i].event in p.accepted || Holds(sp.quarantined, p.spool.outbox[i].event.Id())
    ensures Inv(p.(spool := sp, uploader := Looking, limit := limit))
  {
    var p' := p.(spool := sp, uploader := Looking, limit := limit);
    RemovalKeepsOutbox(p, sp, n);
    assert Pipeline(p') == Pipeline(p) && Unconfirmed(p') == Unconfirmed(p);
  }

  lemma BatchIsAccepted(batch: seq<Row>, sp: Spool, accepted: seq<Event>)
    requires UploaderOk(Acking(batch), sp, accepted)
    ensures |batch| <= |sp.outbox| && batch == sp.outbox[..|batch|]
    ensures forall i | 0 <= i < |batch| :: sp.outbox[i].event in accepted
  {
    forall i | 0 <= i < |batch|
      ensures sp.outbox[i].event in accepted
    {
      assert Events(batch)[i] == batch[i].event == sp.outbox[i].event;
    }
  }

  lemma AcknowledgementKeeps(p: Protocol, limit: nat)
    requires Inv(p) && p.uploader.Acking?
    ensures Inv(p.(spool := Acknowledged(p.spool, p.uploader.batch), uploader := Looking, limit := limit))
  {
    var n := |p.uploader.batch|;
    BatchIsAccepted(p.uploader.batch, p.spool, p.accepted);
    AcknowledgeKeepsLedger(p.spool, n);
    RemovalKeeps(p, Acknowledged(p.spool, p.spool.outbox[..n]), limit, n);
  }

  /** Whether the uploader hears of it or not. */
  lemma AcknowledgeKeeps(p: Protocol, step: Step)
    requires Inv(p) && Apply(p, step).Some? && (step.AcknowledgeCommits? || step.AcknowledgeUnheard?)
    ensures Inv(Apply(p, step).value)
  {
    var limit := Apply(p, step).value.limit;
    assert Apply(p, step).value
        == p.(spool := Acknowledged(p.spool, p.uploader.batch), uploader := Looking, limit := limit) by {
      match step
      case AcknowledgeCommits =>
      case AcknowledgeUnheard =>
    }
    AcknowledgementKeeps(p, limit);
  }

  lemma QuarantineKeeps(p: Protocol, step: Step)
    requires Inv(p) && Apply(p, step).Some? && (step.QuarantineCommits? || step.QuarantineUnheard?)
    ensures Inv(Apply(p, step).value)
  {
    QuarantineKeepsLedger(p.spool);
    var p' := Apply(p, step).value;
    var e := p.spool.outbox[0].event;
    assert Holds(p'.spool.quarantined, e.Id()) by {
      if !Holds(p.spool.quarantined, e.Id()) {
        assert p'.spool.quarantined[|p.spool.quarantined|] == e;
      }
    }
    RemovalKeeps(p, p'.spool, p'.limit, 1);
  }

  /** Steps of the uploader that leave the database alone. */
  lemma DeliveryKeeps(p: Protocol, p': Protocol)
    requires Inv(p) && p' == p.(uploader := p'.uploader, limit := p'.limit, accepted := p'.accepted)
    requires p.accepted <= p'.accepted && UploaderOk(p'.uploader, p.spool, p'.accepted)
    ensures Inv(p')
  {
    assert Pipeline(p') == Pipeline(p) && Unconfirmed(p') == Unconfirmed(p);
    assert forall e | e in p.accepted :: e in p'.accepted;
  }

  lemma DeliveryIsOk(p: Protocol, step: Step)
    requires UploaderOk(p.uploader, p.spool, p.accepted) && Apply(p, step).Some?
    requires step.Load? || step.Wait? || step.DeliverAccepted? || step.DeliverAcceptedUnheard? || step.DeliverFails?
             || step.DeliverRejected? || step.AcknowledgeFails? || step.QuarantineFails?
    ensures var p' := Apply(p, step).value;
            && p' == p.(uploader := p'.uploader, limit := p'.limit, accepted := p'.accepted)
            && p.accepted <= p'.accepted && UploaderOk(p'.uploader, p.spool, p'.accepted)
  {
    if p.uploader.Sending? {
      AllInMore([], p.accepted, Events(p.uploader.batch));
    }
  }

  lemma {:induction false} SteadyPrefix(a: seq<Event>, b: seq<Event>)
    requires Steady(b) && a <= b
    ensures Steady(a)
    decreases |b|
  {
    if |a| == |b| {
      assert a == b;
    } else {
      SteadyPrefix(a, b[..|b| - 1]);
    }
  }

  /** A stream's part of the log is numbered without a gap. */
  lemma LoggedIsSteady(begun: set<string>, streams: map<string, Stream>, log: seq<Event>, rest: seq<Event>,
                       unconfirmed: seq<Event>, id: string)
    requires StreamsOk(streams, log + rest, unconfirmed) && LostOk(begun, streams, log) && id in begun
    ensures Steady(OfStream(id, log))
  {
    if id in streams {
      OfStreamAppend(id, log, rest);
      SteadyPrefix(OfStream(id, log), OfStream(id, log + rest));
    }
  }

  /** A restart forgets what was not committed, and nothing else. */
  lemma RestartKeeps(p: Protocol)
    requires Inv(p)
    ensures Inv(Apply(p, Restart).value)
    ensures Events(Apply(p, Restart).value.spool.outbox) == Events(p.spool.outbox)
  {
    ReopenIsIdentity(p.spool);
    var p' := Apply(p, Restart).value;
    assert Pipeline(p') == p.log && Unconfirmed(p') == [];
    assert forall e | e in p.log :: e in Pipeline(p);
    forall id | id in p.begun
      ensures Steady(OfStream(id, p.log))
    {
      LoggedIsSteady(p.begun, p.streams, p.log, Uncommitted(p), Unconfirmed(p), id);
    }
  }

  lemma StepKeeps(p: Protocol, step: Step)
    requires Inv(p) && Apply(p, step).Some?
    ensures Inv(Apply(p, step).value)
  {
    match step {
      case OpenStream(id) => OpenStreamKeeps(p, id);
      case Publish(id, body, encodedBytes) => PublishKeeps(p, id, body, encodedBytes);
      case Collect => CollectKeeps(p);
      case Commit => CommitKeeps(p);
      case CommitUnheard => StoredKeeps(p, Retrying(p.writer.batch));
      case CommitFails => CommitFailsKeeps(p);
      case Confirm => ConfirmKeeps(p);
      case AcknowledgeCommits => AcknowledgeKeeps(p, step);
      case AcknowledgeUnheard => AcknowledgeKeeps(p, step);
      case QuarantineCommits => QuarantineKeeps(p, step);
      case QuarantineUnheard => QuarantineKeeps(p, step);
      case Restart => RestartKeeps(p);
      case _ =>
        DeliveryIsOk(p, step);
        DeliveryKeeps(p, Apply(p, step).value);
    }
  }

  // ----------------------------------------------------------- whole runs

  /** The state after a run, or None if some step of it was not enabled. */
  function Run(p: Protocol, steps: seq<Step>): Option<Protocol>
    decreases steps
  {
    if steps == [] then Some(p)
    else match Apply(p, steps[0])
         case None => None
         case Some(next) => Run(next, steps[1..])
  }

  lemma {:induction false} RunKeeps(p: Protocol, steps: seq<Step>)
    requires Inv(p) && Run(p, steps).Some?
    ensures Inv(Run(p, steps).value)
    decreases steps
  {
    if steps != [] {
      StepKeeps(p, steps[0]);
      RunKeeps(Apply(p, steps[0]).value, steps[1..]);
    }
  }

  /** No queue in memory outgrows its limit, and the uploader's own limit stays
      between one event and a full batch. */
  predicate Bounded(p: Protocol)
  {
    && |p.channel| <= 128 && 1 <= p.limit <= 128
    && (HasBatch(p.writer) ==> 1 <= |p.writer.batch| <= 128) && (p.writer.Confirming? ==> |p.writer.rest| <= 128)
    && (p.uploader.Sending? || p.uploader.Acking? ==> |p.uploader.batch| <= 128)
  }

  lemma {:induction false} QueuesAreBounded(p: Protocol, steps: seq<Step>)
    requires Bounded(p) && Run(p, steps).Some?
    ensures Bounded(Run(p, steps).value)
    decreases steps
  {
    if steps != [] {
      StepIsBounded(p, steps[0]);
      QueuesAreBounded(Apply(p, steps[0]).value, steps[1..]);
    }
  }

  lemma StepIsBounded(p: Protocol, step: Step)
    requires Bounded(p) && Apply(p, step).Some?
    ensures Bounded(Apply(p, step).value)
  {
  }

  /** In every reachable state: the byte ledger is exact and within the quota; the
      outbox is the end of the committed log; and every confirmed event is in the
      outbox, was accepted by the sink, or has its id in quarantine. */
  lemma NothingConfirmedIsLost(p0: Protocol, steps: seq<Step>)
    requires Init(p0) && Run(p0, steps).Some?
    ensures var p := Run(p0, steps).value;
            && p.spool.pendingBytes == Bytes(Events(p.spool.outbox))
                && p.spool.quarantinedBytes == Bytes(p.spool.quarantined)
            && p.spool.pendingBytes + p.spool.quarantinedBytes <= p.spool.maxBytes
            && (exists k | 0 <= k <= |p.log| :: Events(p.spool.outbox) == p.log[k..])
            && forall e | e in p.confirmed ::
                 e in Events(p.spool.outbox) || e in p.accepted || Holds(p.spool.quarantined, e.Id())
  {
    InitEstablishes(p0);
    RunKeeps(p0, steps);
    var p := Run(p0, steps).value;
    assert Events(p.spool.outbox) == p.log[|p.log| - |p.spool.outbox|..];
    forall e | e in p.confirmed
      ensures e in Events(p.spool.outbox) || e in p.accepted || Holds(p.spool.quarantined, e.Id())
    {
      LoggedIsKept(p.log, p.spool, p.accepted, e);
    }
  }

  lemma LoggedIsKept(log: seq<Event>, sp: Spool, accepted: seq<Event>, e: Event)
    requires OutboxOk(log, sp, accepted) && e in log
    ensures e in Events(sp.outbox) || e in accepted || Holds(sp.quarantined, e.Id())
  {
    var k := |log| - |sp.outbox|;
    var j :| 0 <= j < |log| && log[j] == e;
    if j >= k {
      assert log[k..][j - k] == e;
    }
  }

  /** In every reachable state the log holds, for each stream opened so far, the
      events numbered 1 to m in that order, for some m, each of them at least once
      and its repetitions next to it; and while its process lives m is all of them
      unless a publish is still waiting. */
  lemma StreamsEnterTheLogInOrder(p0: Protocol, steps: seq<Step>, id: string)
    requires Init(p0) && Run(p0, steps).Some? && id in Run(p0, steps).value.begun
    ensures var p := Run(p0, steps).value;
            var own := OfStream(id, p.log);
            && Steady(own) && Consistent(own)
            && (forall n | 1 <= n <= Last(own) :: HasNumber(own, n))
            && (id in p.streams ==> LastIs(p.streams[id], own))
  {
    InitEstablishes(p0);
    RunKeeps(p0, steps);
    var p := Run(p0, steps).value;
    var own := OfStream(id, p.log);
    LoggedIsSteady(p.begun, p.streams, p.log, Uncommitted(p), Unconfirmed(p), id);
    OwnIsConsistent(p, id);
    forall n | 1 <= n <= Last(own)
      ensures HasNumber(own, n)
    {
      SteadyHasAll(own, n);
    }
    if id in p.streams {
      LastLogged(p, id);
    }
  }

  lemma OwnIsConsistent(p: Protocol, id: string)
    requires Consistent(Pipeline(p))
    ensures Consistent(OfStream(id, p.log))
  {
    forall e | e in OfStream(id, p.log)
      ensures e in Pipeline(p)
    {
      OfStreamHas(id, p.log, e);
    }
  }

  lemma LastLogged(p: Protocol, id: string)
    requires StreamsOk(p.streams, Pipeline(p), Unconfirmed(p)) && id in p.streams
    ensures LastIs(p.streams[id], OfStream(id, p.log))
  {
    var w := if p.writer.Confirming? then p.writer.rest else [];
    OfStreamAppend(id, p.log, Uncommitted(p));
    OfStreamAppend(id, w, Uncommitted(p));
    LastOf(p.streams[id], OfStream(id, p.log), OfStream(id, Uncommitted(p)), OfStream(id, w));
  }

  /** What is logged of a stream is all that it numbered, but for one in flight. */
  predicate LastIs(st: Stream, logged: seq<Event>)
  {
    && (st.inFlight.None? ==> Last(logged) == st.next - 1)
    && st.next - 2 <= Last(logged) <= st.next - 1
  }

  lemma LastOf(st: Stream, logged: seq<Event>, uncommitted: seq<Event>, waiting: seq<Event>)
    requires StreamOk(st, logged + uncommitted, waiting + uncommitted)
    ensures LastIs(st, logged)
  {
    if uncommitted == [] {
      assert logged + uncommitted == logged;
    } else {
      assert uncommitted == [uncommitted[0]];
      SteadyStep(logged, uncommitted[0]);
    }
  }

  // ------------------------------------------------- exactly once, or at least once

  /** A commit of a batch that is new everywhere inserts just that batch. */
  lemma BatchIsNew(p: Protocol)
    requires Inv(p) && HasBatch(p.writer) && Distinct(Pipeline(p))
    ensures NewOnes(Events(p.spool.outbox), p.writer.batch) == p.writer.batch
  {
    var batch, stored, removed := p.writer.batch, Events(p.spool.outbox), |p.log| - |p.spool.outbox|;
    assert p.log == p.log[..removed] + stored;
    assert Pipeline(p) == p.log[..removed] + (stored + batch) + p.channel;
    DistinctPart(p.log[..removed], stored + batch, p.channel);
    AllNew(stored, batch);
  }

  lemma DistinctPart(a: seq<Event>, b: seq<Event>, c: seq<Event>)
    requires Distinct(a + b + c)
    ensures Distinct(b)
  {
    forall i, j | 0 <= i < j < |b|
      ensures b[i].Id() != b[j].Id()
    {
      assert (a + b + c)[|a| + i] == b[i] && (a + b + c)[|a| + j] == b[j];
    }
  }

  lemma PublishKeepsDistinct(p: Protocol, e: Event)
    requires Inv(p) && Distinct(Pipeline(p)) && e.streamId in p.streams && e.sequence == p.streams[e.streamId].next
    ensures Distinct(Pipeline(p) + [e])
  {
    var all := Pipeline(p);
    forall i, j | 0 <= i < j < |all| + 1
      ensures (all + [e])[i].Id() != (all + [e])[j].Id()
    {
      assert (all + [e])[i] == all[i];
      if j == |all| && all[i].streamId == e.streamId {
        NextIsLatest(p, e.streamId, all[i]);
      }
    }
  }

  lemma CommitMovesNothing(p: Protocol)
    requires Apply(p, Commit).Some? && NewOnes(Events(p.spool.outbox), p.writer.batch) == p.writer.batch
    ensures Pipeline(Apply(p, Commit).value) == Pipeline(p)
  {
    Assoc(p.log, p.writer.batch, p.channel);
  }

  lemma PipelineStays(p: Protocol, step: Step)
    requires Apply(p, step).Some?
    requires !step.Publish? && !step.Commit? && !step.CommitUnheard? && !step.Restart?
    ensures Pipeline(Apply(p, step).value) == Pipeline(p)
  {
    var p' := Apply(p, step).value;
    assert p'.log == p.log;
    if step.Collect? {
      assert Uncommitted(p') == Uncommitted(p);
    }
  }

  lemma LogIsDistinct(p: Protocol)
    requires Distinct(Pipeline(p))
    ensures Distinct(p.log)
  {
    assert [] + p.log + Uncommitted(p) == Pipeline(p);
    DistinctPart([], p.log, Uncommitted(p));
  }

  /** As long as the writer hears of its commits, no event is logged twice. */
  lemma HeardStepKeepsDistinct(p: Protocol, step: Step)
    requires Inv(p) && Apply(p, step).Some? && Distinct(Pipeline(p)) && !step.CommitUnheard?
    ensures Distinct(Pipeline(Apply(p, step).value))
  {
    var p' := Apply(p, step).value;
    match step {
      case Publish(id, body, encodedBytes) =>
        var e := Event(id, p.streams[id].next, body, encodedBytes);
        PublishAppends(p, p', e);
        PublishKeepsDistinct(p, e);
      case Commit =>
        BatchIsNew(p);
        CommitMovesNothing(p);
      case Restart =>
        LogIsDistinct(p);
        assert Pipeline(p') == p.log;
      case CommitUnheard =>
        assert false;
      case _ => PipelineStays(p, step);
    }
  }

  lemma {:induction false} HeardRunKeepsDistinct(p: Protocol, steps: seq<Step>)
    requires Inv(p) && Run(p, steps).Some? && Distinct(Pipeline(p)) && CommitUnheard !in steps
    ensures Distinct(Pipeline(Run(p, steps).value))
    decreases steps
  {
    if steps != [] {
      StepKeeps(p, steps[0]);
      HeardStepKeepsDistinct(p, steps[0]);
      HeardRunKeepsDistinct(Apply(p, steps[0]).value, steps[1..]);
    }
  }

  lemma {:induction false} OfStreamIsDistinct(id: string, events: seq<Event>)
    requires Distinct(events)
    ensures Distinct(OfStream(id, events))
  {
    if events != [] {
      assert forall i | 0 <= i < |events| - 1 :: events[1..][i] == events[i + 1];
      OfStreamIsDistinct(id, events[1..]);
      var rest := OfStream(id, events[1..]);
      forall i | 0 <= i < |rest|
        ensures rest[i].Id() != events[0].Id()
      {
        OfStreamHas(id, events[1..], rest[i]);
        var j :| 0 <= j < |events| - 1 && events[1..][j] == rest[i];
      }
      if events[0].streamId == id {
        DistinctPrepend(events[0], rest);
      }
    }
  }

  lemma DistinctPrepend(e: Event, events: seq<Event>)
    requires Distinct(events) && forall i | 0 <= i < |events| :: events[i].Id() != e.Id()
    ensures Distinct([e] + events)
  {
    assert forall i | 0 < i <= |events| :: ([e] + events)[i] == events[i - 1];
  }

  lemma {:induction false} SteadyAndDistinct(id: string, events: seq<Event>)
    requires Steady(events) && Distinct(events) && forall e | e in events :: e.streamId == id
    ensures Numbered(events) && Last(events) == |events|
  {
    if events != [] {
      var before, e := events[..|events| - 1], events[|events| - 1];
      assert events == before + [e] && e in events;
      assert forall i | 0 <= i < |before| :: events[i] == before[i];
      SteadyPrefix(before, events);
      SteadyAndDistinct(id, before);
      if before != [] {
        assert events[|before| - 1] in events && events[|before| - 1].Id() != e.Id();
      }
    }
  }

  /** In every run in which the writer hears of its commits, the log holds for each
      stream exactly the events numbered 1 to m, each once. */
  lemma StreamsEnterTheLogGapFree(p0: Protocol, steps: seq<Step>, id: string)
    requires Init(p0) && Run(p0, steps).Some? && id in Run(p0, steps).value.begun && CommitUnheard !in steps
    ensures var p := Run(p0, steps).value;
            && Distinct(p.log) && Numbered(OfStream(id, p.log))
            && (id in p.streams && p.streams[id].inFlight.None? ==> |OfStream(id, p.log)| == p.streams[id].next - 1)
  {
    InitEstablishes(p0);
    assert Pipeline(p0) == p0.log;
    HeardRunKeepsDistinct(p0, steps);
    StreamsEnterTheLogInOrder(p0, steps, id);
    var p := Run(p0, steps).value;
    var own := OfStream(id, p.log);
    LogIsDistinct(p);
    OfStreamIsDistinct(id, p.log);
    forall e | e in own
      ensures e.streamId == id
    {
      OfStreamHas(id, p.log, e);
    }
    SteadyAndDistinct(id, own);
  }

  /** A commit logs nothing twice exactly when every event of its batch that was
      logged before is still in the outbox: that is, unless an earlier commit of the
      batch went unheard and the uploader has removed some of it since. */
  lemma CommitRepeatsIff(p: Protocol, next: Writer)
    requires Inv(p) && HasBatch(p.writer) && Persisted(p.spool, p.writer.batch).Success? && Distinct(p.log)
    ensures Distinct(Stored(p, next).log) <==>
            forall e | e in p.writer.batch && e in p.log :: e in Events(p.spool.outbox)
  {
    var batch, stored := p.writer.batch, Events(p.spool.outbox);
    PersistKeepsLedger(p.spool, batch);
    OutboxIsLogged(p);
    assert forall e | e in p.log + batch :: e in Pipeline(p);
    if forall e | e in batch && e in p.log :: e in stored {
      NoneIsRepeated(p.log, stored, batch);
    } else {
      var e :| e in batch && e in p.log && e !in stored;
      OneIsRepeated(p.log, stored, batch, e);
    }
  }

  lemma StoredIsNotAdded(stored: seq<Event>, added: seq<Event>, e: Event, j: nat)
    requires Distinct(stored + added) && e in stored && j < |added|
    ensures added[j].Id() != e.Id()
  {
    var k :| 0 <= k < |stored| && stored[k] == e;
    assert (stored + added)[k] == stored[k] && (stored + added)[|stored| + j] == added[j];
  }

  lemma NoneIsRepeated(log: seq<Event>, stored: seq<Event>, batch: seq<Event>)
    requires Distinct(log) && Distinct(stored + NewOnes(stored, batch)) && Consistent(log + batch)
    requires forall e | e in batch && e in log :: e in stored
    ensures Distinct(log + NewOnes(stored, batch))
  {
    var added := NewOnes(stored, batch);
    NewOnesAre(stored, batch);
    forall i, j | 0 <= i < |log| && 0 <= j < |added|
      ensures log[i].Id() != added[j].Id()
    {
      assert added[j] in batch && log[i] in log;
      if added[j] in stored {
        StoredIsNotAdded(stored, added, added[j], j);
      }
    }
    DistinctTogether(log, stored, added);
  }

  lemma OneIsRepeated(log: seq<Event>, stored: seq<Event>, batch: seq<Event>, e: Event)
    requires Consistent(log + batch) && e in batch && e in log && e !in stored && forall x | x in stored :: x in log
    ensures !Distinct(log + NewOnes(stored, batch))
  {
    var added := NewOnes(stored, batch);
    NewOnesAre(stored, batch);
    forall k | 0 <= k < |stored|
      ensures stored[k].Id() != e.Id()
    {
      assert stored[k] in stored && stored[k] in log;
    }
    var j :| 0 <= j < |added| && added[j].Id() == e.Id();
    var i :| 0 <= i < |log| && log[i] == e;
    assert (log + added)[i] == log[i] && (log + added)[|log| + j] == added[j];
  }

  lemma DistinctTogether(log: seq<Event>, stored: seq<Event>, added: seq<Event>)
    requires Distinct(log) && Distinct(stored + added)
    requires forall i, j | 0 <= i < |log| && 0 <= j < |added| :: log[i].Id() != added[j].Id()
    ensures Distinct(log + added)
  {
    forall i, j | 0 <= i < j < |log| + |added|
      ensures (log + added)[i].Id() != (log + added)[j].Id()
    {
      if i >= |log| {
        assert (stored + added)[|stored| + i - |log|] == added[i - |log|];
        assert (stored + added)[|stored| + j - |log|] == added[j - |log|];
      }
    }
  }

  // A commit that goes unheard, a delivery, and the retry.
  const ONE := Event("s", 1, "x", 1)
  const EMPTY := Protocol(map[], [], Idle, Holding(0, []), Looking, MAX_BATCH_SIZE, [], [], [], {})
  const STORED := EMPTY.(streams := map["s" := Stream(2, Some(ONE))], writer := Retrying([ONE]), log := [ONE],
                         spool := Holding(1, [Row(0, ONE)]), begun := {"s"})
  const DELIVER := [Load, DeliverAccepted, AcknowledgeCommits]

  function Holding(nextId: nat, rows: seq<Row>): Spool
  {
    Spool(10, nextId, rows, [], Bytes(Events(rows)), 0)
  }

  lemma {:induction false} RunOn(p: Protocol, a: seq<Step>, b: seq<Step>)
    requires Run(p, a).Some?
    ensures Run(p, a + b) == Run(Run(p, a).value, b)
    decreases a
  {
    if a == [] {
      assert a + b == b;
    } else {
      assert (a + b)[1..] == a[1..] + b;
      RunOn(Apply(p, a[0]).value, a[1..], b);
    }
  }

  lemma RunOfOne(p: Protocol, step: Step)
    ensures Run(p, [step]) == Apply(p, step)
  {
    assert [step][1..] == [];
  }

  lemma OneIsStored(id: nat)
    ensures Persisted(Holding(id, []), [ONE]) == Success(Holding(id + 1, [Row(id, ONE)]))
    ensures NewOnes(Events(Holding(id, []).outbox), [ONE]) == [ONE]
  {
    var sp := Holding(id, []);
    assert Events(sp.outbox) == [] && [ONE][1..] == [];
    assert Insert(sp, ONE).outbox == [Row(id, ONE)] && Events([Row(id, ONE)]) == [ONE];
    assert Bytes([ONE]) == 1;
    assert InsertAll(sp, [ONE]) == Insert(sp, ONE);
    assert NewOnes([], [ONE]) == [ONE] + NewOnes([ONE], []);
  }

  lemma OneIsPublished()
    ensures Run(EMPTY, [OpenStream("s"), Publish("s", "x", 1), Collect, CommitUnheard]) == Some(STORED)
  {
    OneIsStored(0);
    var steps := [OpenStream("s"), Publish("s", "x", 1), Collect, CommitUnheard];
    var p1 := Apply(EMPTY, steps[0]).value;
    var p2 := Apply(p1, steps[1]).value;
    var p3 := Apply(p2, steps[2]).value;
    assert p3 == EMPTY.(streams := map["s" := Stream(2, Some(ONE))], writer := Collecting([ONE]), begun := {"s"});
    assert p3.log + NewOnes(Events(p3.spool.outbox), [ONE]) == [ONE];
    assert Apply(p3, steps[3]) == Some(STORED);
    assert steps[1..][1..] == steps[2..] && steps[2..][1..] == steps[3..] && steps[3..][1..] == [];
    assert Run(p3, steps[3..]) == Some(STORED);
    assert Run(p2, steps[2..]) == Some(STORED);
  }

  lemma OneIsDelivered(p: Protocol, id: nat)
    requires p.spool == Holding(id + 1, [Row(id, ONE)]) && p.uploader.Looking? && p.limit == MAX_BATCH_SIZE
    ensures Run(p, DELIVER) == Some(p.(spool := Holding(id + 1, []), accepted := p.accepted + [ONE]))
  {
    var batch := [Row(id, ONE)];
    assert Batch(p.spool, p.limit) == batch && Events(batch) == [ONE];
    var sending := Apply(p, Load).value;
    assert sending == p.(uploader := Sending(batch));
    var acking := Apply(sending, DeliverAccepted).value;
    assert acking == p.(uploader := Acking(batch), accepted := p.accepted + [ONE]);
    WithoutPrefix(p.spool.outbox, 1);
    assert p.spool.outbox[..1] == batch && p.spool.outbox[1..] == [] && batch[1..] == [];
    assert Bytes([ONE]) == 1;
    var done := Apply(acking, AcknowledgeCommits).value;
    assert DELIVER[1..][1..] == [AcknowledgeCommits];
    RunOfOne(acking, AcknowledgeCommits);
    assert Run(sending, DELIVER[1..]) == Some(done);
  }

  lemma OneIsStoredAgain(p: Protocol)
    requires p.spool == Holding(1, []) && p.writer == Retrying([ONE])
    ensures Run(p, [Commit])
            == Some(p.(spool := Holding(2, [Row(1, ONE)]), writer := Confirming([ONE]), log := p.log + [ONE]))
  {
    OneIsStored(1);
    RunOfOne(p, Commit);
  }

  /** Delivered, stored again and delivered again. */
  lemma Twice(p: Protocol, steps: seq<Step>, stored: Protocol)
    requires Run(p, steps) == Some(stored) && stored.spool == Holding(1, [Row(0, ONE)])
    requires stored.writer == Retrying([ONE]) && stored.uploader.Looking? && stored.limit == MAX_BATCH_SIZE
    ensures var r := Run(p, steps + DELIVER + [Commit] + DELIVER);
            r.Some? && r.value.log == stored.log + [ONE] && r.value.accepted == stored.accepted + [ONE] + [ONE]
  {
    OneIsDelivered(stored, 0);
    RunOn(p, steps, DELIVER);
    var removed := Run(p, steps + DELIVER).value;
    OneIsStoredAgain(removed);
    RunOn(p, steps + DELIVER, [Commit]);
    var again := Run(p, steps + DELIVER + [Commit]).value;
    OneIsDelivered(again, 1);
    RunOn(p, steps + DELIVER + [Commit], DELIVER);
  }

  /** At least once is all there is: here the event is logged twice, and the sink
      accepts it twice. */
  lemma EventCanBeDeliveredTwice()
    ensures Init(EMPTY)
    ensures exists steps :: Run(EMPTY, steps).Some?
              && Run(EMPTY, steps).value.log == [ONE, ONE] && Run(EMPTY, steps).value.accepted == [ONE, ONE]
  {
    var publish := [OpenStream("s"), Publish("s", "x", 1), Collect, CommitUnheard];
    OneIsPublished();
    Twice(EMPTY, publish, STORED);
    var r := Run(EMPTY, publish + DELIVER + [Commit] + DELIVER).value;
    assert r.log == [ONE, ONE] && r.accepted == [ONE, ONE];
  }

  predicate Rising(events: seq<Event>)
  {
    forall k, l | 0 <= k < l < |events| :: events[k].sequence <= events[l].sequence
  }

  lemma {:induction false} SteadyRises(events: seq<Event>)
    requires Steady(events)
    ensures Rising(events)
  {
    if events != [] {
      var before := events[..|events| - 1];
      SteadyPrefix(before, events);
      SteadyRises(before);
      SteadyBounds(events);
      assert forall i | 0 <= i < |before| :: events[i] == before[i];
    }
  }

  lemma RisingTail(id: string, events: seq<Event>)
    requires events != [] && Rising(OfStream(id, events))
    ensures Rising(OfStream(id, events[1..]))
    ensures events[0].streamId == id ==> forall e | e in events[1..] && e.streamId == id ::
            events[0].sequence <= e.sequence
  {
    var own, rest := OfStream(id, events), OfStream(id, events[1..]);
    if events[0].streamId == id {
      assert own == [events[0]] + rest;
      assert forall k | 0 <= k < |rest| :: rest[k] == own[k + 1];
      forall e | e in events[1..] && e.streamId == id
        ensures events[0].sequence <= e.sequence
      {
        OfStreamHas(id, events[1..], e);
        var k :| 0 <= k < |rest| && rest[k] == e;
        assert own[0].sequence <= own[k + 1].sequence;
      }
    } else {
      assert own == rest;
    }
  }

  /** The log keeps each stream's order: an earlier number stands earlier. */
  lemma {:induction false} NumberedOrder(id: string, events: seq<Event>, i: nat, j: nat)
    requires i < |events| && j < |events| && events[i].streamId == id && events[j].streamId == id
    requires Rising(OfStream(id, events)) && events[i].sequence < events[j].sequence
    ensures i < j
    decreases events
  {
    RisingTail(id, events);
    var rest := events[1..];
    if i > 0 && j > 0 {
      assert rest[i - 1] == events[i] && rest[j - 1] == events[j];
      NumberedOrder(id, rest, i - 1, j - 1);
    }
    assert forall k | 0 <= k < |rest| :: rest[k] == events[k + 1] && rest[k] in rest;
  }

  // ------------------------------------------------ what is put in quarantine

  /** Along the run only batches with a bad event are rejected. */
  ghost predicate RejectsOnlyBad(p: Protocol, steps: seq<Step>, bad: Event -> bool)
    decreases steps
  {
    steps != [] ==>
      && (steps[0].DeliverRejected? && p.uploader.Sending? ==>
            exists e :: e in Events(p.uploader.batch) && bad(e))
      && (Apply(p, steps[0]).Some? ==> RejectsOnlyBad(Apply(p, steps[0]).value, steps[1..], bad))
  }

  /** From the n-th on, what is in quarantine is bad, and so is what is on its way. */
  ghost predicate QuarantinesBad(p: Protocol, n: nat, bad: Event -> bool)
  {
    && n <= |p.spool.quarantined| && (forall i | n <= i < |p.spool.quarantined| :: bad(p.spool.quarantined[i]))
    && (p.uploader.Isolated? ==> bad(p.uploader.row.event))
  }

  lemma StepQuarantinesBad(p: Protocol, step: Step, n: nat, bad: Event -> bool)
    requires Inv(p) && Apply(p, step).Some? && QuarantinesBad(p, n, bad)
    requires step.DeliverRejected? ==> exists e :: e in Events(p.uploader.batch) && bad(e)
    ensures QuarantinesBad(Apply(p, step).value, n, bad)
    ensures p.spool.quarantined[..n] == Apply(p, step).value.spool.quarantined[..n]
  {
    match step {
      case Commit => InsertAllOnlyAppends(p.spool, p.writer.batch);
      case CommitUnheard => InsertAllOnlyAppends(p.spool, p.writer.batch);
      case DeliverRejected =>
        var e :| e in Events(p.uploader.batch) && bad(e);
      case QuarantineCommits => QuarantineAdds(p.spool);
      case QuarantineUnheard => QuarantineAdds(p.spool);
      case _ =>
    }
  }

  lemma QuarantineAdds(sp: Spool)
    requires Ledger(sp) && sp.outbox != []
    ensures var e, after := sp.outbox[0].event, Quarantined(sp, sp.outbox[0]).quarantined;
            after == sp.quarantined || after == sp.quarantined + [e]
  {
    QuarantineKeepsLedger(sp);
  }

  lemma {:induction false} RunQuarantinesBad(p: Protocol, steps: seq<Step>, n: nat, bad: Event -> bool)
    requires Inv(p) && Run(p, steps).Some? && QuarantinesBad(p, n, bad) && RejectsOnlyBad(p, steps, bad)
    ensures QuarantinesBad(Run(p, steps).value, n, bad)
    ensures p.spool.quarantined[..n] == Run(p, steps).value.spool.quarantined[..n]
    decreases steps
  {
    if steps != [] {
      StepQuarantinesBad(p, steps[0], n, bad);
      StepKeeps(p, steps[0]);
      RunQuarantinesBad(Apply(p, steps[0]).value, steps[1..], n, bad);
    }
  }

  /** If only batches with a bad event are ever rejected, only bad events come into
      quarantine: a good one is never taken for the reason. */
  lemma OnlyBadIsQuarantined(p0: Protocol, steps: seq<Step>, bad: Event -> bool)
    requires Init(p0) && Run(p0, steps).Some? && RejectsOnlyBad(p0, steps, bad)
    ensures var before, after := p0.spool.quarantined, Run(p0, steps).value.spool.quarantined;
            before <= after && forall i | |before| <= i < |after| :: bad(after[i])
  {
    InitEstablishes(p0);
    RunQuarantinesBad(p0, steps, |p0.spool.quarantined|, bad);
  }

  /** No event leaves the outbox before an earlier event of its stream. */
  lemma EarlierEventsLeaveFirst(p0: Protocol, steps: seq<Step>, a: Event, b: Event)
    requires Init(p0) && Run(p0, steps).Some? && a.streamId in Run(p0, steps).value.begun
    requires var p := Run(p0, steps).value;
             a in p.log && b in p.log && a.streamId == b.streamId && a.sequence < b.sequence
                 && b !in Events(p.spool.outbox)
    ensures a !in Events(Run(p0, steps).value.spool.outbox)
  {
    InitEstablishes(p0);
    RunKeeps(p0, steps);
    var p := Run(p0, steps).value;
    LoggedIsSteady(p.begun, p.streams, p.log, Uncommitted(p), Unconfirmed(p), a.streamId);
    SteadyRises(OfStream(a.streamId, p.log));
    var k := |p.log| - |p.spool.outbox|;
    assert Events(p.spool.outbox) == p.log[k..];
    var j :| 0 <= j < |p.log| && p.log[j] == b;
    assert forall x | k <= x < |p.log| :: p.log[k..][x - k] == p.log[x] && p.log[x] != b;
    forall i | k <= i < |p.log|
      ensures p.log[i] != a
    {
      if p.log[i] == a {
        NumberedOrder(a.streamId, p.log, i, j);
      }
    }
  }
}
