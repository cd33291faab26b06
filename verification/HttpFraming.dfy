/** Requests on a kept-alive connection: framed by their headers' end and their
    Content-Length, whatever pieces the bytes arrive in. */
module HttpFraming {
  import opened Wrappers
  import opened Texts
  import opened Decimal
  import opened Numbers
  import opened Sequences

  newtype Byte = n: int | 0 <= n < 256

  type Bytes = seq<Byte>

  /** How header bytes read as text; any function will do. */
  type Decoder = Bytes -> string

  const END_OF_HEADERS: Bytes := [13, 10, 13, 10]

  // --------------------------------------------------------------------- headers

  predicate EndsHeaders(s: Bytes, i: int)
  {
    4 <= i <= |s| && s[i - 4..i] == END_OF_HEADERS
  }

  /** Where the first blank line ends. */
  function HeaderEndFrom(s: Bytes, from: nat): (r: Option<nat>)
    requires from <= |s| + 1 && forall i | i < from :: !EndsHeaders(s, i)
    ensures r.Some? ==> EndsHeaders(s, r.value) && forall i | i < r.value :: !EndsHeaders(s, i)
    ensures r.None? ==> forall i :: !EndsHeaders(s, i)
    decreases |s| + 1 - from
  {
    if from > |s| then None else if EndsHeaders(s, from) then Some(from) else HeaderEndFrom(s, from + 1)
  }

  function HeaderEnd(s: Bytes): (r: Option<nat>)
    ensures r.Some? ==> EndsHeaders(s, r.value) && forall i | i < r.value :: !EndsHeaders(s, i)
    ensures r.None? ==> forall i :: !EndsHeaders(s, i)
  {
    HeaderEndFrom(s, 0)
  }

  function ParseDigits(s: string): Option<nat>
  {
    if s != [] && forall i | 0 <= i < |s| :: '0' <= s[i] <= '9' then
      (ValueOfDigits(s); Some(Value(s)))
    else None
  }

  lemma {:induction false} ValueOfDigits(s: string)
    requires forall i | 0 <= i < |s| :: '0' <= s[i] <= '9'
    ensures Value(s) >= 0
  {
    if s != [] {
      ValueOfDigits(s[..|s| - 1]);
    }
  }

  function ParseUsize(s: string): Option<nat>
  {
    var digits := ParseDigits(if s != [] && s[0] == '+' then s[1..] else s);
    if digits.Some? && digits.value <= U64_MAX then digits else None
  }

  /** What a line says of the content length, if it can be read. */
  function LengthOnLine(line: string): Option<nat>
  {
    var split := SplitOnce(line, ':');
    if split.Some? && SameIgnoringCase(split.value.0, "content-length") then ParseUsize(Trim(split.value.1)) else None
  }

  /** The first line that gives a length decides. */
  function ContentLength(lines: seq<string>): nat
  {
    if lines == [] then 0
    else
      var first := LengthOnLine(lines[0]);
      if first.Some? then first.value else ContentLength(lines[1..])
  }

  function HeaderMap(lines: seq<string>): map<string, string>
  {
    if lines == [] then map[]
    else
      var before := HeaderMap(lines[..|lines| - 1]);
      var split := SplitOnce(lines[|lines| - 1], ':');
      if split.Some? then before[Lower(Trim(split.value.0)) := Trim(split.value.1)] else before
  }

  predicate AsksToClose(line: string)
  {
    var split := SplitOnce(line, ':');
    split.Some? && SameIgnoringCase(split.value.0, "connection") && SameIgnoringCase(Trim(split.value.1), "close")
  }

  datatype Head = Head(verb: string, path: string, headers: map<string, string>, close: bool)

  /** The request line has at least three words. */
  function ParseHead(lines: seq<string>): Option<Head>
  {
    var words := if lines == [] then [] else Words(lines[0]);
    if |words| < 3 then None
    else
      var fields := if lines == [] then [] else lines[1..];
      var close := SameIgnoringCase(words[2], "HTTP/1.0") || exists line | line in fields :: AsksToClose(line);
      Some(Head(words[0], words[1][..Find(words[1], '?')], HeaderMap(fields), close))
  }

  // --------------------------------------------------------- one request, at once

  datatype Request = Request(head: Head, body: Bytes)

  datatype Outcome = Got(request: Request) | Closed | TornHeaders | TornBody | BadRequestLine

  /** The next request of a stream, and what of the stream is left: the framing
      of section 6.3 of RFC 9112 for requests with a Content-Length or no body. */
  function Next(decode: Decoder, stream: Bytes): (r: (Outcome, Bytes))
    ensures r.0.Got? ==> |r.1| < |stream|
  {
    var end := HeaderEnd(stream);
    if end.None? then (if stream == [] then Closed else TornHeaders, stream)
    else
      var lines := Lines(decode(stream[..end.value]));
      var requestEnd := end.value + ContentLength(lines);
      if |stream| < requestEnd then (TornBody, stream)
      else
        var head := ParseHead(lines);
        if head.None? then (BadRequestLine, stream)
        else (Got(Request(head.value, stream[end.value..requestEnd])), stream[requestEnd..])
  }

  /** More bytes never move the end of headers already there. */
  lemma HeadersEndForGood(s: Bytes, more: Bytes)
    requires HeaderEnd(s).Some?
    ensures HeaderEnd(s + more) == HeaderEnd(s)
  {
    var i := HeaderEnd(s).value;
    assert (s + more)[i - 4..i] == s[i - 4..i];
    assert EndsHeaders(s + more, i);
    forall j | j < i
      ensures !EndsHeaders(s + more, j)
    {
      assert !EndsHeaders(s, j);
      if 4 <= j {
        assert (s + more)[j - 4..j] == s[j - 4..j];
      }
    }
  }

  // ---------------------------------------------------------- read_http_request

  function Flatten(chunks: seq<Bytes>): Bytes
  {
    if chunks == [] then [] else chunks[0] + Flatten(chunks[1..])
  }

  /** A connection: the bytes received and not yet used, and the pieces in which
      the rest will arrive; after them the peer has closed. */
  class Connection {
    var pending: Bytes
    var chunks: seq<Bytes>

    ghost predicate Valid()
      reads this
    {
      forall c | c in chunks :: c != []
    }

    function Remaining(): Bytes
      reads this
    {
      pending + Flatten(chunks)
    }

    /** One read of the socket; zero bytes once the peer has closed. */
    method Receive() returns (closed: bool)
      requires Valid()
      modifies this
      ensures Valid() && Remaining() == old(Remaining())
      ensures closed <==> old(chunks) == []
      ensures closed ==> pending == old(pending) && chunks == []
      ensures !closed ==> |chunks| < |old(chunks)| && pending == old(pending) + old(chunks)[0]
    {
      closed := chunks == [];
      if !closed {
        assert pending + (chunks[0] + Flatten(chunks[1..])) == pending + chunks[0] + Flatten(chunks[1..]);
        assert forall c | c in chunks[1..] :: c in chunks;
        pending := pending + chunks[0];
        chunks := chunks[1..];
      }
    }

    /** Reads until the headers have ended, or the peer has closed. */
    method ReceiveHeaders() returns (end: Option<nat>)
      requires Valid()
      modifies this
      ensures Valid() && Remaining() == old(Remaining()) && end == HeaderEnd(Remaining())
      ensures if end.Some? then end.value <= |pending| else pending == Remaining()
    {
      end := HeaderEnd(pending);
      while end.None?
        invariant Valid() && Remaining() == old(Remaining()) && end == HeaderEnd(pending)
        decreases |chunks|
      {
        var closed := Receive();
        if closed {
          assert Remaining() == pending;
          return;
        }
        end := HeaderEnd(pending);
      }
      HeadersEndForGood(pending, Flatten(chunks));
    }

    /** Reads until so many bytes are there, or the peer has closed. */
    method ReceiveUpTo(length: nat) returns (enough: bool)
      requires Valid()
      modifies this
      ensures Valid() && Remaining() == old(Remaining()) && |pending| >= |old(pending)|
      ensures enough <==> |Remaining()| >= length
      ensures enough <==> |pending| >= length
    {
      while |pending| < length
        invariant Valid() && Remaining() == old(Remaining()) && |pending| >= |old(pending)|
        decreases |chunks|
      {
        var closed := Receive();
        if closed {
          assert Remaining() == pending;
          return false;
        }
      }
      return true;
    }

    /** However the bytes are cut into pieces, one call returns the stream's next
        request and leaves what follows it. */
    method ReadRequest(decode: Decoder) returns (r: Outcome)
      requires Valid()
      modifies this
      ensures Valid() && (r, Remaining()) == Next(decode, old(Remaining()))
    {
      ghost var stream := Remaining();
      var end := ReceiveHeaders();
      if end.None? {
        return if pending == [] then Closed else TornHeaders;
      }
      assert stream[..end.value] == pending[..end.value];
      var lines := Lines(decode(pending[..end.value]));
      var requestEnd := end.value + ContentLength(lines);
      var enough := ReceiveUpTo(requestEnd);
      if !enough {
        return TornBody;
      }
      var head := ParseHead(lines);
      if head.None? {
        return BadRequestLine;
      }
      var body := pending[end.value..requestEnd];
      SplitAt(pending, Flatten(chunks), end.value, requestEnd);
      pending := pending[requestEnd..];
      return Got(Request(head.value, body));
    }
  }

  lemma SplitAt(a: Bytes, b: Bytes, i: nat, j: nat)
    requires i <= j <= |a|
    ensures (a + b)[i..j] == a[i..j] && (a + b)[j..] == a[j..] + b
  {
  }

  // ------------------------------------------------------------ whole connections

  /** What a connection's handler gets: requests until one asks to close or the
      reading ends, and how it ended. */
  datatype Session = Session(requests: seq<Request>, end: Outcome)

  function Served(decode: Decoder, stream: Bytes): Session
    decreases |stream|
  {
    var (outcome, rest) := Next(decode, stream);
    if !outcome.Got? then Session([], outcome)
    else if outcome.request.head.close then Session([outcome.request], outcome)
    else
      var later := Served(decode, rest);
      Session([outcome.request] + later.requests, later.end)
  }

  lemma LastOfMore(first: Request, later: seq<Request>)
    ensures var all := [first] + later;
            && all[|all| - 1] == (if later == [] then first else later[|later| - 1])
            && forall i | 0 < i < |all| :: all[i] == later[i - 1]
  {
  }

  /** Only the last request served can ask to close, and the session ends with it
      exactly if it does; else it ends where nothing more could be read. */
  lemma {:induction false} ClosingIsLast(decode: Decoder, stream: Bytes)
    ensures var s := Served(decode, stream);
            && (forall i | 0 <= i < |s.requests| - 1 :: !s.requests[i].head.close)
            && (s.end.Got? <==> s.requests != [] && s.requests[|s.requests| - 1].head.close)
    decreases |stream|
  {
    var (outcome, rest) := Next(decode, stream);
    if outcome.Got? && !outcome.request.head.close {
      ClosingIsLast(decode, rest);
      var later := Served(decode, rest);
      assert Served(decode, stream) == Session([outcome.request] + later.requests, later.end);
      LastOfMore(outcome.request, later.requests);
    }
  }

  /** The loop of requests: however the bytes are cut, what it serves depends on
      the bytes alone. */
  method Serve(connection: Connection, decode: Decoder) returns (session: Session)
    requires connection.Valid()
    modifies connection
    ensures session == Served(decode, old(connection.Remaining()))
  {
    var requests := [];
    ghost var stream := connection.Remaining();
    while true
      invariant connection.Valid()
      invariant Served(decode, stream)
                == Session(requests + Served(decode, connection.Remaining()).requests,
                           Served(decode, connection.Remaining()).end)
      decreases |connection.Remaining()|
    {
      ghost var before := connection.Remaining();
      var outcome := connection.ReadRequest(decode);
      if !outcome.Got? {
        assert requests + [] == requests;
        return Session(requests, outcome);
      }
      assert Served(decode, before).requests
          == [outcome.request] + if outcome.request.head.close then []
              else Served(decode, connection.Remaining()).requests;
      Assoc(requests, [outcome.request],
            if outcome.request.head.close then [] else Served(decode, connection.Remaining()).requests);
      requests := requests + [outcome.request];
      if outcome.request.head.close {
        assert requests + [] == requests;
        return Session(requests, outcome);
      }
    }
  }

  // -------------------------------------------------------- the peek before it

  // The request line of an agent's WebSocket, as far as the handler looks at it:
  // GET /ai/agents/ws and a space. A decoded text begins with these characters
  // exactly when its bytes do.
  const AGENT_PREFIX: Bytes := [71, 69, 84, 32, 47, 97, 105, 47, 97, 103, 101, 110, 116, 115, 47, 119, 115, 32]

  const PREVIEW_SIZE: nat := 2048

  /** What becomes of a connection: the agent handler has it, or it is served. */
  datatype Handled = AgentSocket | Http(session: Session)

  /** The bytes that are there when the handler looks: the first piece to arrive. */
  function Preview(chunks: seq<Bytes>): Bytes
  {
    if chunks == [] then [] else if |chunks[0]| <= PREVIEW_SIZE then chunks[0] else chunks[0][..PREVIEW_SIZE]
  }

  function HandledAs(decode: Decoder, chunks: seq<Bytes>): Handled
  {
    if AGENT_PREFIX <= Preview(chunks) then AgentSocket else Http(Served(decode, Flatten(chunks)))
  }

  /** `handle_stream`: a look at the first bytes, then the loop of requests. */
  method HandleStream(connection: Connection, decode: Decoder) returns (handled: Handled)
    requires connection.Valid() && connection.pending == []
    modifies connection
    ensures handled == HandledAs(decode, old(connection.chunks))
    ensures !(AGENT_PREFIX <= old(connection.Remaining())) ==>
            handled == Http(Served(decode, old(connection.Remaining())))
  {
    assert connection.Remaining() == Flatten(connection.chunks);
    PreviewIsPrefix(connection.chunks);
    if AGENT_PREFIX <= Preview(connection.chunks) {
      return AgentSocket;
    }
    var session := Serve(connection, decode);
    return Http(session);
  }

  lemma PreviewIsPrefix(chunks: seq<Bytes>)
    ensures Preview(chunks) <= Flatten(chunks)
  {
  }

  /** The pieces of a stream: none is empty, and together they are the stream. */
  ghost predicate Cuts(chunks: seq<Bytes>, stream: Bytes)
  {
    (forall c | c in chunks :: c != []) && Flatten(chunks) == stream
  }

  ghost predicate BytesDecide(decode: Decoder, stream: Bytes)
  {
    forall a, b | Cuts(a, stream) && Cuts(b, stream) :: HandledAs(decode, a) == HandledAs(decode, b)
  }

  function Singles(s: Bytes): seq<Bytes>
  {
    if s == [] then [] else [s[..1]] + Singles(s[1..])
  }

  lemma {:induction false} SinglesCut(s: Bytes)
    ensures Cuts(Singles(s), s)
  {
    if s != [] {
      SinglesCut(s[1..]);
      assert Singles(s)[1..] == Singles(s[1..]);
      assert s == s[..1] + s[1..];
    }
  }

  lemma FirstPiece(piece: Bytes, rest: Bytes)
    requires piece != []
    ensures Cuts([piece] + Singles(rest), piece + rest) && ([piece] + Singles(rest))[0] == piece
  {
    SinglesCut(rest);
    assert ([piece] + Singles(rest))[1..] == Singles(rest);
  }

  /** A whole connection is handled as its bytes alone determine if and only if
      they do not begin like an agent's request. If they do, it matters whether
      the beginning arrives in one piece. */
  lemma BytesDecideIff(decode: Decoder, stream: Bytes)
    ensures BytesDecide(decode, stream) <==> !(AGENT_PREFIX <= stream)
  {
    if AGENT_PREFIX <= stream {
      var n := |AGENT_PREFIX|;
      assert stream[..n] + stream[n..] == stream;
      FirstPiece(stream[..n], stream[n..]);
      var whole := [stream[..n]] + Singles(stream[n..]);
      assert Preview(whole) == AGENT_PREFIX;
      SinglesCut(stream);
      assert Singles(stream)[0] == stream[..1];
      assert HandledAs(decode, whole).AgentSocket? && HandledAs(decode, Singles(stream)).Http?;
    } else {
      forall a, b | Cuts(a, stream) && Cuts(b, stream)
        ensures HandledAs(decode, a) == HandledAs(decode, b)
      {
        PreviewIsPrefix(a);
        PreviewIsPrefix(b);
      }
    }
  }

  // ---------------------------------------------------------------- conservation

  /** The bytes of exactly one request. */
  predicate IsFrame(decode: Decoder, frame: Bytes)
  {
    var end := HeaderEnd(frame);
    && end.Some?
    && ParseHead(Lines(decode(frame[..end.value]))).Some?
    && |frame| == end.value + ContentLength(Lines(decode(frame[..end.value])))
  }

  function RequestOf(decode: Decoder, frame: Bytes): Request
    requires IsFrame(decode, frame)
  {
    var end := HeaderEnd(frame).value;
    Request(ParseHead(Lines(decode(frame[..end]))).value, frame[end..])
  }

  predicate FrameOf(decode: Decoder, frame: Bytes, request: Request)
  {
    IsFrame(decode, frame) && RequestOf(decode, frame) == request
  }

  /** A frame followed by anything is read as that frame, and only that. */
  lemma FrameIsRead(decode: Decoder, frame: Bytes, rest: Bytes)
    requires IsFrame(decode, frame)
    ensures Next(decode, frame + rest) == (Got(RequestOf(decode, frame)), rest)
  {
    HeadersEndForGood(frame, rest);
    var end := HeaderEnd(frame).value;
    assert (frame + rest)[..end] == frame[..end];
    assert (frame + rest)[end..|frame|] == frame[end..];
    assert (frame + rest)[|frame|..] == rest;
  }

  /** Whatever is read was there: a request's frame is taken off the stream. */
  lemma ReadIsAFrame(decode: Decoder, stream: Bytes)
    requires Next(decode, stream).0.Got?
    ensures var r := Next(decode, stream);
            var frame := stream[..|stream| - |r.1|];
            FrameOf(decode, frame, r.0.request) && stream == frame + r.1
  {
    var end := HeaderEnd(stream).value;
    var r := Next(decode, stream);
    var frame := stream[..|stream| - |r.1|];
    assert stream == frame + r.1;
    HeadersOfFront(frame, stream, end);
    assert frame[..end] == stream[..end];
  }

  lemma HeadersOfFront(front: Bytes, stream: Bytes, end: nat)
    requires front <= stream && HeaderEnd(stream) == Some(end) && end <= |front|
    ensures HeaderEnd(front) == Some(end)
  {
    assert front == stream[..|front|];
    forall j | j < end
      ensures !EndsHeaders(front, j)
    {
      assert !EndsHeaders(stream, j);
      if 4 <= j {
        assert front[j - 4..j] == stream[j - 4..j];
      }
    }
    assert front[end - 4..end] == stream[end - 4..end];
    assert EndsHeaders(front, end);
  }

  /** These frames' requests, and then another session. */
  ghost predicate Continues(decode: Decoder, frames: seq<Bytes>, whole: Session, later: Session)
    requires forall i | 0 <= i < |frames| :: IsFrame(decode, frames[i])
  {
    && |whole.requests| == |frames| + |later.requests| && whole.end == later.end
    && (forall i | 0 <= i < |frames| :: whole.requests[i] == RequestOf(decode, frames[i]))
    && whole.requests[|frames|..] == later.requests
  }

  lemma FirstFrameIsServed(decode: Decoder, frame: Bytes, later: Bytes)
    requires IsFrame(decode, frame) && !RequestOf(decode, frame).head.close
    ensures var t := Served(decode, later);
            Served(decode, frame + later) == Session([RequestOf(decode, frame)] + t.requests, t.end)
  {
    FrameIsRead(decode, frame, later);
  }

  /** Pipelining: requests sent back to back are all served, in order, and nothing
      is lost or read twice: what follows them is served as if it came alone. */
  lemma {:induction false} PipelinedRequestsAreServed(decode: Decoder, frames: seq<Bytes>, rest: Bytes)
    requires forall i | 0 <= i < |frames| :: IsFrame(decode, frames[i]) && !RequestOf(decode, frames[i]).head.close
    ensures Continues(decode, frames, Served(decode, Flatten(frames) + rest), Served(decode, rest))
  {
    if frames == [] {
      assert Flatten(frames) + rest == rest;
    } else {
      var later := Flatten(frames[1..]) + rest;
      assert Flatten(frames) + rest == frames[0] + later;
      FirstFrameIsServed(decode, frames[0], later);
      PipelinedRequestsAreServed(decode, frames[1..], rest);
      OneMoreFrame(decode, frames, Served(decode, later), Served(decode, rest));
    }
  }

  lemma OneMoreFrame(decode: Decoder, frames: seq<Bytes>, t: Session, last: Session)
    requires frames != [] && forall i | 0 <= i < |frames| :: IsFrame(decode, frames[i])
    requires Continues(decode, frames[1..], t, last)
    ensures Continues(decode, frames, Session([RequestOf(decode, frames[0])] + t.requests, t.end), last)
  {
    Prepended(RequestOf(decode, frames[0]), t.requests, [RequestOf(decode, frames[0])] + t.requests, |frames|);
    forall i | 0 < i < |frames|
      ensures ([RequestOf(decode, frames[0])] + t.requests)[i] == RequestOf(decode, frames[i])
    {
      assert frames[1..][i - 1] == frames[i];
    }
  }

  lemma Prepended(x: Request, t: seq<Request>, s: seq<Request>, n: nat)
    requires s == [x] + t && 0 < n <= |s|
    ensures s[0] == x && s[n..] == t[n - 1..] && forall i | 0 < i < |s| :: s[i] == t[i - 1]
  {
  }

  /** The frames of the requests served from a stream. */
  function Frames(decode: Decoder, stream: Bytes): seq<Bytes>
    decreases |stream|
  {
    var (outcome, rest) := Next(decode, stream);
    if !outcome.Got? then []
    else [stream[..|stream| - |rest|]] + if outcome.request.head.close then [] else Frames(decode, rest)
  }

  /** These frames begin the stream, and are those of the requests. */
  ghost predicate FramesOf(decode: Decoder, frames: seq<Bytes>, requests: seq<Request>, stream: Bytes)
  {
    && |frames| == |requests| && Flatten(frames) <= stream
    && forall i | 0 <= i < |frames| :: FrameOf(decode, frames[i], requests[i])
  }

  /** Every stream begins with the frames of the requests it is served as. */
  lemma {:induction false} ServedRequestsWereSent(decode: Decoder, stream: Bytes)
    ensures FramesOf(decode, Frames(decode, stream), Served(decode, stream).requests, stream)
    decreases |stream|
  {
    var (outcome, rest) := Next(decode, stream);
    if outcome.Got? {
      ReadIsAFrame(decode, stream);
      var frame, request := stream[..|stream| - |rest|], outcome.request;
      if request.head.close {
        FrameInFront(decode, frame, request, [], [], rest);
        assert [frame] + [] == [frame] && [request] + [] == [request];
      } else {
        ServedRequestsWereSent(decode, rest);
        FrameInFront(decode, frame, request, Frames(decode, rest), Served(decode, rest).requests, rest);
      }
    }
  }

  lemma FrameInFront(decode: Decoder, frame: Bytes, request: Request, frames: seq<Bytes>, requests: seq<Request>,
                     rest: Bytes)
    requires FrameOf(decode, frame, request) && FramesOf(decode, frames, requests, rest)
    ensures FramesOf(decode, [frame] + frames, [request] + requests, frame + rest)
  {
    var all, asked := [frame] + frames, [request] + requests;
    FlattenFront(frame, frames, rest);
    forall i | 0 <= i < |all|
      ensures FrameOf(decode, all[i], asked[i])
    {
      if i > 0 {
        assert all[i] == frames[i - 1] && asked[i] == requests[i - 1];
      }
    }
  }

  lemma FlattenFront(frame: Bytes, frames: seq<Bytes>, rest: Bytes)
    requires Flatten(frames) <= rest
    ensures Flatten([frame] + frames) <= frame + rest
  {
    assert ([frame] + frames)[1..] == frames;
  }
}
