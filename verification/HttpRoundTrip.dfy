/** What a client writes as a request is what the framing reads back. */
module HttpRoundTrip {
  import opened Wrappers
  import opened Texts
  import opened Decimal
  import opened HttpFraming
  import opened Numbers

  type Field = (string, string)

  /** A request as a client means it. */
  datatype Message = Message(verb: string, target: string, fields: seq<Field>, body: Bytes)

  predicate Ascii(s: string)
  {
    forall i | 0 <= i < |s| :: s[i] as int < 128
  }

  /** Visible characters only, as in a method, a target or a field name. */
  predicate Token(s: string)
  {
    s != [] && forall i | 0 <= i < |s| :: 0x20 < s[i] as int < 0x7F
  }

  predicate Without(s: string, c: char)
  {
    forall i | 0 <= i < |s| :: s[i] != c
  }

  predicate NoBreak(s: string)
  {
    forall i | 0 <= i < |s| :: s[i] != '\r' && s[i] != '\n'
  }

  predicate Trimmed(s: string)
  {
    s != [] ==> !IsWhitespace(s[0]) && !IsWhitespace(s[|s| - 1])
  }

  predicate FieldShape(f: Field)
  {
    Token(f.0) && Without(f.0, ':') && Ascii(f.1) && NoBreak(f.1) && Trimmed(f.1)
  }

  predicate FieldOk(f: Field)
  {
    FieldShape(f) && !SameIgnoringCase(f.0, "content-length")
  }

  predicate MessageOk(m: Message)
  {
    && Token(m.verb) && Without(m.verb, ':') && Token(m.target)
    && (forall f | f in m.fields :: FieldOk(f)) && |m.body| <= U64_MAX
  }

  // -------------------------------------------------------------------- writing

  function FieldLine(f: Field): string
  {
    f.0 + (": " + f.1)
  }

  function FieldLines(fields: seq<Field>): (r: seq<string>)
    ensures |r| == |fields| && forall i | 0 <= i < |fields| :: r[i] == FieldLine(fields[i])
  {
    seq(|fields|, i requires 0 <= i < |fields| => FieldLine(fields[i]))
  }

  function RequestLine(m: Message): string
  {
    m.verb + (" " + (m.target + " HTTP/1.1"))
  }

  function AllFields(m: Message): seq<Field>
  {
    m.fields + [("Content-Length", Digits(|m.body|))]
  }

  function Joined(lines: seq<string>): string
  {
    if lines == [] then [] else lines[0] + ("\r\n" + Joined(lines[1..]))
  }

  function HeadLines(m: Message): seq<string>
  {
    [RequestLine(m)] + (FieldLines(AllFields(m)) + [""])
  }

  function ToBytes(s: string): (r: Bytes)
    requires Ascii(s)
    ensures |r| == |s| && forall i | 0 <= i < |s| :: r[i] as int == s[i] as int
  {
    seq(|s|, i requires 0 <= i < |s| => s[i] as int as Byte)
  }

  function Encoded(m: Message): Bytes
    requires MessageOk(m)
  {
    HeadIsAscii(m);
    ToBytes(Joined(HeadLines(m))) + m.body
  }

  /** ASCII bytes decode to their characters, as UTF-8 promises. */
  ghost predicate DecodesAscii(decode: Decoder)
  {
    forall s | Ascii(s) :: decode(ToBytes(s)) == s
  }

  // ----------------------------------------------------------- lines and breaks

  predicate LineOk(l: string)
  {
    Ascii(l) && NoBreak(l)
  }

  lemma {:induction false} JoinedIsAscii(lines: seq<string>)
    requires forall l | l in lines :: LineOk(l)
    ensures Ascii(Joined(lines))
  {
    if lines != [] {
      assert lines[0] in lines;
      JoinedIsAscii(lines[1..]);
    }
  }

  lemma DigitsLine(n: nat)
    ensures LineOk(FieldLine(("Content-Length", Digits(n))))
  {
  }

  lemma HeadLinesOk(m: Message)
    requires MessageOk(m)
    ensures forall l | l in HeadLines(m) :: LineOk(l)
    ensures forall i | 0 <= i < |HeadLines(m)| - 1 :: HeadLines(m)[i] != []
  {
    DigitsLine(|m.body|);
    var lines := HeadLines(m);
    forall i | 0 <= i < |lines|
      ensures LineOk(lines[i]) && (i < |lines| - 1 ==> lines[i] != [])
    {
      if 0 < i < |lines| - 1 {
        var f := AllFields(m)[i - 1];
        assert lines[i] == FieldLine(f);
        assert i - 1 < |m.fields| ==> f in m.fields;
      }
    }
  }

  lemma HeadIsAscii(m: Message)
    requires MessageOk(m)
    ensures Ascii(Joined(HeadLines(m)))
  {
    HeadLinesOk(m);
    JoinedIsAscii(HeadLines(m));
  }

  lemma {:induction false} FindAfter(a: string, b: string, c: char)
    requires Without(a, c) && b != [] && b[0] == c
    ensures Find(a + b, c) == |a|
  {
    if a != [] {
      FindAfter(a[1..], b, c);
      assert (a + b)[1..] == a[1..] + b;
    }
  }

  lemma FirstLine(l: string, rest: string)
    requires NoBreak(l)
    ensures Lines(l + ("\r\n" + rest)) == [l] + Lines(rest)
  {
    var s := l + ("\r\n" + rest);
    var head, tail := l + "\r", "\n" + rest;
    assert s == head + tail;
    FindAfter(head, tail, '\n');
    assert Find(s, '\n') == |l| + 1 && s[|l|] == '\r';
    assert s[..|l|] == l && s[|l| + 2..] == rest;
  }

  /** Reading lines undoes writing them. */
  lemma {:induction false} LinesOfJoined(lines: seq<string>)
    requires forall l | l in lines :: NoBreak(l)
    ensures Lines(Joined(lines)) == lines
  {
    if lines != [] {
      assert lines[0] in lines;
      LinesOfJoined(lines[1..]);
      FirstLine(lines[0], Joined(lines[1..]));
    }
  }

  lemma BlankLineAt(s: Bytes, j: int)
    ensures EndsHeaders(s, j) <==> 4 <= j <= |s| && s[j - 4] == 13 && s[j - 3] == 10 && s[j - 2] == 13 && s[j - 1] == 10
  {
    if 4 <= j <= |s| {
      var w := s[j - 4..j];
      assert w[0] == s[j - 4] && w[1] == s[j - 3] && w[2] == s[j - 2] && w[3] == s[j - 1];
    }
  }

  /** Prefixing a line adds no blank line unless the rest begins with a break. */
  lemma LineAddsNoBlank(l: string, s: Bytes, t: Bytes)
    requires NoBreak(l) && |s| == |l| + 2 + |t| && s[|l|] == 13 && s[|l| + 1] == 10 && s[|l| + 2..] == t
    requires forall i | 0 <= i < |l| :: s[i] as int == l[i] as int
    requires (forall j | j < |t| :: !EndsHeaders(t, j)) && (|t| == 2 || (|t| > 2 && t[0] != 13))
    ensures forall j | j < |s| :: !EndsHeaders(s, j)
  {
    var k := |l| + 2;
    assert forall i | 0 <= i < |l| :: s[i] != 13;
    assert forall i | 0 <= i < |t| :: s[k + i] == t[i];
    forall j | j < |s|
      ensures !EndsHeaders(s, j)
    {
      BlankLineAt(s, j);
      BlankLineAt(t, j - k);
      assert j - k < |t|;
    }
  }

  /** The blank line at the end is the first one. */
  lemma {:induction false} BlankLineIsLast(lines: seq<string>, s: Bytes)
    requires |lines| > 1 && (forall l | l in lines :: LineOk(l)) && Ascii(Joined(lines)) && s == ToBytes(Joined(lines))
    requires lines[|lines| - 1] == [] && forall i | 0 <= i < |lines| - 1 :: lines[i] != []
    ensures |s| > 4 && s[0] != 13 && EndsHeaders(s, |s|) && forall j | j < |s| :: !EndsHeaders(s, j)
    decreases |lines|
  {
    var l, rest := lines[0], Joined(lines[1..]);
    assert l in lines;
    JoinedIsAscii(lines[1..]);
    var t := ToBytes(rest);
    if |lines| == 2 {
      OnlyBlankLine(lines[1..]);
    } else {
      BlankLineIsLast(lines[1..], t);
    }
    LineAddsNoBlank(l, s, t);
    EndsAlike(s, t, |l| + 2);
  }

  lemma OnlyBlankLine(lines: seq<string>)
    requires |lines| == 1 && lines[0] == []
    ensures Joined(lines) == "\r\n"
  {
  }

  lemma EndsAlike(s: Bytes, t: Bytes, k: nat)
    requires 2 <= k && |s| == k + |t| && s[k..] == t && s[k - 2] == 13 && s[k - 1] == 10
    requires EndsHeaders(t, |t|) || t == [13, 10]
    ensures EndsHeaders(s, |s|)
  {
  }

  // --------------------------------------------------------------------- reading

  lemma {:induction false} WordEnds(w: string, rest: string)
    requires (forall i | 0 <= i < |w| :: !IsWhitespace(w[i])) && (rest != [] ==> IsWhitespace(rest[0]))
    ensures WordLength(w + rest) == |w|
  {
    if w != [] {
      WordEnds(w[1..], rest);
      assert (w + rest)[1..] == w[1..] + rest;
    } else {
      assert w + rest == rest;
    }
  }

  lemma FirstWord(w: string, rest: string)
    requires Token(w) && (rest != [] ==> IsWhitespace(rest[0]))
    ensures Words(w + rest) == [w] + Words(rest)
  {
    WordEnds(w, rest);
    assert (w + rest)[..|w|] == w && (w + rest)[|w|..] == rest;
  }

  lemma TwoWords(a: string, b: string)
    requires Token(a) && Token(b)
    ensures Words(a + (" " + b)) == [a, b]
  {
    FirstWord(b, []);
    assert b + [] == b;
    FirstWord(a, " " + b);
  }

  lemma TargetAndVersion(target: string)
    requires Token(target)
    ensures Words(target + " HTTP/1.1") == [target, "HTTP/1.1"]
  {
    TwoWords(target, "HTTP/1.1");
    assert " HTTP/1.1" == " " + "HTTP/1.1";
  }

  lemma RequestLineHasThreeWords(m: Message)
    requires Token(m.verb) && Token(m.target)
    ensures Words(RequestLine(m)) == [m.verb, m.target, "HTTP/1.1"]
  {
    var rest := m.target + " HTTP/1.1";
    TargetAndVersion(m.target);
    FirstWord(m.verb, " " + rest);
  }

  lemma ThreeWords(a: string, b: string, c: string)
    requires Token(a) && Token(b) && Token(c)
    ensures Words(a + (" " + (b + (" " + c)))) == [a, b, c]
  {
    TwoWords(b, c);
    FirstWord(a, " " + (b + (" " + c)));
  }

  /** A request line of HTTP/1.0, in any case of letters, or a Connection: close field
      closes the connection after the request, and nothing else does. The path is the
      target up to its first question mark. */
  lemma ClosesIff(verb: string, target: string, version: string, fields: seq<string>)
    requires Token(verb) && Token(target) && Token(version)
    ensures var head := ParseHead([verb + (" " + (target + (" " + version)))] + fields);
            && head.Some? && head.value.verb == verb && head.value.path <= target
            && (forall c | c in head.value.path :: c != '?')
            && (|head.value.path| < |target| ==> target[|head.value.path|] == '?')
            && (head.value.close <==>
                  || SameIgnoringCase(version, "HTTP/1.0")
                  || exists line | line in fields ::
                       var split := SplitOnce(line, ':');
                       && split.Some? && SameIgnoringCase(split.value.0, "connection")
                       && SameIgnoringCase(Trim(split.value.1), "close"))
  {
    ThreeWords(verb, target, version);
    var lines := [verb + (" " + (target + (" " + version)))] + fields;
    assert lines[1..] == fields && Words(lines[0]) == [verb, target, version];
    assert ParseHead(lines).value.close <==>
           SameIgnoringCase(version, "HTTP/1.0") || exists line | line in fields :: AsksToClose(line);
    forall line
      ensures AsksToClose(line) <==>
              var split := SplitOnce(line, ':');
              && split.Some? && SameIgnoringCase(split.value.0, "connection")
              && SameIgnoringCase(Trim(split.value.1), "close")
    {
    }
  }

  lemma SpacedIsNotTheLength(name: string, k: nat)
    requires k < |name| && name[k] == ' '
    ensures !SameIgnoringCase(name, "content-length")
  {
  }

  lemma RequestLineGivesNoLength(m: Message)
    requires Without(m.verb, ':')
    ensures LengthOnLine(RequestLine(m)).None?
  {
    var s := RequestLine(m);
    var r := Find(s, ':');
    assert s[|m.verb|] == ' ';
    assert forall i | 0 <= i < |m.verb| :: s[i] == m.verb[i];
    assert r > |m.verb|;
    if r < |s| {
      SpacedIsNotTheLength(s[..r], |m.verb|);
    }
  }

  lemma TrimsBack(v: string)
    requires Trimmed(v)
    ensures Trim(" " + v) == v
  {
    assert (" " + v)[1..] == v;
    assert TrimStart(" " + v) == TrimStart(v);
  }

  lemma FieldSplits(f: Field)
    requires FieldShape(f)
    ensures SplitOnce(FieldLine(f), ':') == Some((f.0, " " + f.1)) && Trim(" " + f.1) == f.1 && Trim(f.0) == f.0
  {
    FindAfter(f.0, ": " + f.1, ':');
    assert FieldLine(f)[..|f.0|] == f.0 && FieldLine(f)[|f.0| + 1..] == " " + f.1;
    TrimsBack(f.1);
  }

  lemma DigitsShape(n: nat)
    ensures FieldShape(("Content-Length", Digits(n)))
  {
  }

  lemma DigitsParse(n: nat)
    requires n <= U64_MAX
    ensures ParseUsize(Digits(n)) == Some(n)
  {
    DigitsFaithful(n);
    assert Digits(n)[0] != '+';
  }

  lemma LengthFieldIsRead(f: Field, n: nat)
    requires FieldShape(f) && SameIgnoringCase(f.0, "content-length") && ParseUsize(f.1) == Some(n)
    ensures LengthOnLine(FieldLine(f)) == Some(n)
  {
    FieldSplits(f);
  }

  lemma NameOfLength()
    ensures SameIgnoringCase("Content-Length", "content-length")
  {
  }

  lemma LengthIsRead(n: nat)
    requires n <= U64_MAX
    ensures LengthOnLine(FieldLine(("Content-Length", Digits(n)))) == Some(n)
  {
    var f: Field := ("Content-Length", Digits(n));
    DigitsShape(n);
    DigitsParse(n);
    NameOfLength();
    LengthFieldIsRead(f, n);
  }

  lemma OtherFieldsGiveNoLength(f: Field)
    requires FieldOk(f)
    ensures LengthOnLine(FieldLine(f)).None?
  {
    FieldSplits(f);
  }

  lemma LinesStep(fields: seq<Field>, last: Field)
    requires fields != []
    ensures var lines := FieldLines(fields + [last]) + [""];
            lines[0] == FieldLine(fields[0]) && lines[1..] == FieldLines(fields[1..] + [last]) + [""]
  {
  }

  lemma {:induction false} LengthAfterFields(fields: seq<Field>, n: nat)
    requires (forall f | f in fields :: FieldOk(f)) && n <= U64_MAX
    ensures ContentLength(FieldLines(fields + [("Content-Length", Digits(n))]) + [""]) == n
  {
    var last := ("Content-Length", Digits(n));
    if fields == [] {
      LengthIsRead(n);
      assert (FieldLines([] + [last]) + [""])[0] == FieldLine(last);
    } else {
      assert fields[0] in fields;
      OtherFieldsGiveNoLength(fields[0]);
      LengthAfterFields(fields[1..], n);
      LinesStep(fields, last);
    }
  }

  lemma ContentLengthIsRead(m: Message)
    requires MessageOk(m)
    ensures ContentLength(HeadLines(m)) == |m.body|
  {
    RequestLineGivesNoLength(m);
    LengthAfterFields(m.fields, |m.body|);
    assert HeadLines(m)[1..] == FieldLines(AllFields(m)) + [""];
  }

  /** The fields as the reader keeps them: by lower-case name, the last one winning. */
  function FieldMap(fields: seq<Field>): map<string, string>
  {
    if fields == [] then map[]
    else
      var last := fields[|fields| - 1];
      FieldMap(fields[..|fields| - 1])[Lower(last.0) := last.1]
  }

  lemma {:induction false} FieldsAreRead(fields: seq<Field>)
    requires forall f | f in fields :: FieldShape(f)
    ensures HeaderMap(FieldLines(fields)) == FieldMap(fields)
  {
    if fields != [] {
      var before, last := fields[..|fields| - 1], fields[|fields| - 1];
      assert last in fields;
      FieldSplits(last);
      FieldsAreRead(before);
      assert FieldLines(fields)[..|fields| - 1] == FieldLines(before);
    }
  }

  predicate ClosesConnection(f: Field)
  {
    SameIgnoringCase(f.0, "connection") && SameIgnoringCase(f.1, "close")
  }

  lemma CloseIsRead(fields: seq<Field>)
    requires forall f | f in fields :: FieldShape(f)
    ensures (exists line | line in FieldLines(fields) + [""] :: AsksToClose(line)) <==> exists f | f in fields ::
            ClosesConnection(f)
  {
    var lines := FieldLines(fields);
    forall i | 0 <= i < |fields|
      ensures AsksToClose(lines[i]) <==> ClosesConnection(fields[i])
      ensures lines[i] in lines + [""]
    {
      assert fields[i] in fields;
      FieldSplits(fields[i]);
      assert (lines + [""])[i] == lines[i];
    }
    assert !AsksToClose("");
    if exists line | line in lines + [""] :: AsksToClose(line) {
      var line :| line in lines + [""] && AsksToClose(line);
      var i :| 0 <= i < |lines| && lines[i] == line;
      assert fields[i] in fields;
    }
  }

  /** The head a client means: its method, its path without the query, its fields
      with the content length, and whether the connection is to close. */
  function HeadOf(m: Message): Head
  {
    Head(m.verb, m.target[..Find(m.target, '?')], FieldMap(AllFields(m)),
         exists f | f in m.fields :: ClosesConnection(f))
  }

  lemma AllFieldsShape(m: Message)
    requires MessageOk(m)
    ensures forall f | f in AllFields(m) :: FieldShape(f)
    ensures (exists f | f in AllFields(m) :: ClosesConnection(f)) <==> exists f | f in m.fields :: ClosesConnection(f)
  {
  }

  lemma HeadIsRead(m: Message)
    requires MessageOk(m)
    ensures ParseHead(HeadLines(m)) == Some(HeadOf(m))
  {
    RequestLineHasThreeWords(m);
    AllFieldsShape(m);
    var fields := AllFields(m);
    var lines := FieldLines(fields) + [""];
    assert HeadLines(m)[0] == RequestLine(m) && HeadLines(m)[1..] == lines;
    FieldsAreRead(fields);
    assert lines[..|lines| - 1] == FieldLines(fields);
    assert HeaderMap(lines) == HeaderMap(FieldLines(fields));
    CloseIsRead(fields);
    assert "HTTP/1.1"[7] == '1' && "HTTP/1.0"[7] == '0';
  }

  /** The round trip: a request a client writes is one frame, and it is read as
      the client meant it. */
  lemma WrittenRequestsAreReadBack(decode: Decoder, m: Message)
    requires MessageOk(m) && DecodesAscii(decode)
    ensures IsFrame(decode, Encoded(m)) && RequestOf(decode, Encoded(m)) == Request(HeadOf(m), m.body)
  {
    HeadIsAscii(m);
    HeadLinesOk(m);
    var text := Joined(HeadLines(m));
    var head := ToBytes(text);
    BlankLineIsLast(HeadLines(m), head);
    assert HeaderEnd(head) == Some(|head|);
    HeadersEndForGood(head, m.body);
    assert Encoded(m)[..|head|] == head && Encoded(m)[|head|..] == m.body;
    LinesOfJoined(HeadLines(m));
    ContentLengthIsRead(m);
    HeadIsRead(m);
  }

  // --------------------------------------------------------- whole conversations

  function AsServed(m: Message): Request
  {
    Request(HeadOf(m), m.body)
  }

  /** How many of these requests are served: up to the first that asks to close. */
  function Answered(sent: seq<Message>): (n: nat)
    ensures n <= |sent| && (sent != [] ==> n > 0) && forall i | 0 <= i < n - 1 :: !HeadOf(sent[i]).close
    ensures n < |sent| ==> HeadOf(sent[n - 1]).close
  {
    if sent == [] then 0 else if HeadOf(sent[0]).close then 1 else 1 + Answered(sent[1..])
  }

  ghost function AllEncoded(sent: seq<Message>): (r: seq<Bytes>)
    requires forall m | m in sent :: MessageOk(m)
    ensures |r| == |sent| && forall i | 0 <= i < |sent| :: MessageOk(sent[i]) && r[i] == Encoded(sent[i])
  {
    seq(|sent|, i requires 0 <= i < |sent| => (assert sent[i] in sent; Encoded(sent[i])))
  }

  /** What the loop serves of requests written one after another. */
  ghost predicate ServedAsMeant(session: Session, sent: seq<Message>)
  {
    var n := Answered(sent);
    && |session.requests| == n && (forall i | 0 <= i < n :: session.requests[i] == AsServed(sent[i]))
    && session.end == if n > 0 && HeadOf(sent[n - 1]).close then Got(AsServed(sent[n - 1])) else Closed
  }

  /** A session with one more request in front. */
  function Before(first: Message, later: Session): Session
  {
    if HeadOf(first).close then Session([AsServed(first)], Got(AsServed(first)))
    else Session([AsServed(first)] + later.requests, later.end)
  }

  lemma FirstIsServed(decode: Decoder, first: Message, rest: Bytes)
    requires DecodesAscii(decode) && MessageOk(first)
    ensures Served(decode, Encoded(first) + rest) == Before(first, Served(decode, rest))
  {
    WrittenRequestsAreReadBack(decode, first);
    FrameIsRead(decode, Encoded(first), rest);
  }

  lemma EncodedOneByOne(sent: seq<Message>)
    requires sent != [] && forall m | m in sent :: MessageOk(m)
    ensures MessageOk(sent[0]) && Flatten(AllEncoded(sent)) == Encoded(sent[0]) + Flatten(AllEncoded(sent[1..]))
  {
    assert AllEncoded(sent)[1..] == AllEncoded(sent[1..]);
  }

  lemma {:induction false} WrittenRequestsAreServed(decode: Decoder, sent: seq<Message>)
    requires DecodesAscii(decode) && forall m | m in sent :: MessageOk(m)
    ensures ServedAsMeant(Served(decode, Flatten(AllEncoded(sent))), sent)
  {
    if sent != [] {
      EncodedOneByOne(sent);
      FirstIsServed(decode, sent[0], Flatten(AllEncoded(sent[1..])));
      WrittenRequestsAreServed(decode, sent[1..]);
      OneMoreServed(Served(decode, Flatten(AllEncoded(sent[1..]))), sent);
    }
  }

  lemma OneMoreServed(later: Session, sent: seq<Message>)
    requires sent != [] && ServedAsMeant(later, sent[1..])
    ensures ServedAsMeant(Before(sent[0], later), sent)
  {
    if !HeadOf(sent[0]).close {
      var requests, rest := [AsServed(sent[0])] + later.requests, sent[1..];
      Prepended(AsServed(sent[0]), later.requests, requests, |requests|);
      forall i | 0 < i < Answered(sent)
        ensures requests[i] == AsServed(sent[i])
      {
        assert sent[i] == rest[i - 1];
      }
    }
  }

  predicate IsAgentRequest(m: Message)
  {
    m.verb == "GET" && m.target == "/ai/agents/ws"
  }

  const AGENT_TEXT := "GET" + (" " + ("/ai/agents/ws" + " "))

  lemma AgentText()
    ensures |AGENT_TEXT| == 18 == |AGENT_PREFIX| && forall i | 0 <= i < 18 ::
            AGENT_TEXT[i] as int == AGENT_PREFIX[i] as int
  {
    assert AGENT_TEXT == "GET /ai/agents/ws ";
  }

  /** Texts that agree up to a space agree in their first words. */
  lemma SameFirstWord(a: string, b: string, w: string, rest: string)
    requires Without(a, ' ') && Without(w, ' ')
    ensures a + (" " + b) <= w + (" " + rest) <==> a == w && b <= rest
  {
    var x, y := a + (" " + b), w + (" " + rest);
    assert x[|a|] == ' ' && y[|w|] == ' ' && x[|a| + 1..] == b && y[|w| + 1..] == rest;
    if x <= y {
      assert forall i | 0 <= i < |a| :: y[i] == x[i] == a[i] != ' ';
      assert forall i | 0 <= i < |w| :: y[i] == w[i] != ' ';
      assert y[|a|] == ' ';
      assert |a| == |w|;
      assert a == y[..|a|] == w;
      assert b <= rest;
    }
  }

  /** Where a text starts like an agent's request, its first two words are these. */
  lemma FirstTwoWords(verb: string, target: string, rest: string)
    requires Token(verb) && Token(target)
    ensures AGENT_TEXT <= verb + (" " + (target + (" " + rest))) <==> verb == "GET" && target == "/ai/agents/ws"
  {
    SameFirstWord("GET", "/ai/agents/ws" + " ", verb, target + (" " + rest));
    SameFirstWord("/ai/agents/ws", "", target, rest);
    assert " " + "" == " ";
  }

  lemma PrefixInBytes(text: string, rest: Bytes)
    requires Ascii(text) && |text| >= 18
    ensures AGENT_TEXT <= text <==> AGENT_PREFIX <= ToBytes(text) + rest
  {
    AgentText();
    var bytes := ToBytes(text) + rest;
    assert forall i | 0 <= i < 18 :: bytes[i] as int == text[i] as int;
    assert AGENT_TEXT <= text <==> forall i | 0 <= i < 18 :: AGENT_TEXT[i] == text[i];
    assert AGENT_PREFIX <= bytes <==> forall i | 0 <= i < 18 :: AGENT_PREFIX[i] == bytes[i];
  }

  /** A written request begins like an agent's exactly when it is one. */
  lemma AgentRequestIff(m: Message, more: Bytes)
    requires MessageOk(m)
    ensures AGENT_PREFIX <= Encoded(m) + more <==> IsAgentRequest(m)
  {
    HeadIsAscii(m);
    var text := Joined(HeadLines(m));
    var rest := "HTTP/1.1" + ("\r\n" + Joined(HeadLines(m)[1..]));
    assert text == m.verb + (" " + (m.target + (" " + rest)));
    FirstTwoWords(m.verb, m.target, rest);
    PrefixInBytes(text, m.body + more);
    assert Encoded(m) + more == ToBytes(text) + (m.body + more);
  }

  /** A conversation begins like an agent's exactly when its first request is one. */
  lemma AgentConversationIff(sent: seq<Message>)
    requires forall m | m in sent :: MessageOk(m)
    ensures AGENT_PREFIX <= Flatten(AllEncoded(sent)) <==> sent != [] && IsAgentRequest(sent[0])
  {
    if sent != [] {
      EncodedOneByOne(sent);
      AgentRequestIff(sent[0], Flatten(AllEncoded(sent[1..])));
    }
  }

  /** A whole conversation: requests written one after another, cut into any pieces
      on the way. They are served as meant, each once and in order, up to the first
      that asks to close, unless the first is an agent's request and its beginning
      arrives in one piece. */
  method ServeWritten(connection: Connection, decode: Decoder, ghost sent: seq<Message>) returns (handled: Handled)
    requires connection.Valid() && connection.pending == [] && DecodesAscii(decode)
    requires (forall m | m in sent :: MessageOk(m)) && connection.Remaining() == Flatten(AllEncoded(sent))
    modifies connection
    ensures handled.AgentSocket? <==> AGENT_PREFIX <= Preview(old(connection.chunks))
    ensures handled.AgentSocket? ==> sent != [] && IsAgentRequest(sent[0])
    ensures handled.Http? ==> ServedAsMeant(handled.session, sent)
  {
    PreviewIsPrefix(connection.chunks);
    assert connection.Remaining() == Flatten(connection.chunks);
    WrittenRequestsAreServed(decode, sent);
    AgentConversationIff(sent);
    handled := HandleStream(connection, decode);
  }

  lemma TwoPieces(stream: Bytes, k: nat)
    requires 0 < k < |stream|
    ensures Flatten([stream]) == Flatten([stream[..k], stream[k..]]) == stream
  {
    var a, b := stream[..k], stream[k..];
    assert Flatten([stream]) == stream + Flatten([]) && Flatten([b]) == b + Flatten([]);
    assert [a, b][1..] == [b] && Flatten([a, b]) == a + Flatten([b]);
  }

  /** The exception is real: an agent's request sent whole is not served, and cut
      after its method it is. */
  lemma AgentRequestDependsOnTheCut(decode: Decoder, m: Message)
    requires DecodesAscii(decode) && MessageOk(m) && IsAgentRequest(m) && |Encoded(m)| <= PREVIEW_SIZE
    ensures |Encoded(m)| > 3 && HandledAs(decode, [Encoded(m)]) == AgentSocket
    ensures HandledAs(decode, [Encoded(m)[..3], Encoded(m)[3..]]).Http?
    ensures ServedAsMeant(HandledAs(decode, [Encoded(m)[..3], Encoded(m)[3..]]).session, [m])
  {
    AgentRequestIff(m, []);
    assert Encoded(m) + [] == Encoded(m);
    TwoPieces(Encoded(m), 3);
    WrittenRequestsAreServed(decode, [m]);
    EncodedOneByOne([m]);
    assert AllEncoded([m][1..]) == [] && Flatten(AllEncoded([m])) == Encoded(m);
  }

  /** There is such a request. */
  lemma ShortestAgentRequest()
    ensures var m := Message("GET", "/ai/agents/ws", [], []);
            MessageOk(m) && IsAgentRequest(m) && |Encoded(m)| <= PREVIEW_SIZE
  {
    var m := Message("GET", "/ai/agents/ws", [], []);
    var lines := HeadLines(m);
    assert lines == [RequestLine(m), FieldLine(("Content-Length", Digits(0))), ""];
    assert lines[1..] == [FieldLine(("Content-Length", Digits(0))), ""] && lines[1..][1..] == [""];
    OnlyBlankLine(lines[1..][1..]);
    assert |Joined(lines[1..])| == |lines[1]| + 2 + 2;
  }
}
