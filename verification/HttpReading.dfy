/** What is read from any bytes at all, not only from those that a proper client
    writes, said without the reader's own terms. */
module HttpReading {
  import opened Wrappers
  import opened Texts
  import opened Decimal
  import opened HttpFraming
  import opened Numbers

  // ------------------------------------------------------------------ characters

  predicate CapitalAndSmall(c: char, d: char)
  {
    'A' <= c <= 'Z' && d as int - c as int == 'a' as int - 'A' as int
  }

  /** Texts are the same ignoring case if they differ at most in the case of ASCII
      letters. */
  lemma SameButForCase(a: string, b: string)
    ensures SameIgnoringCase(a, b) <==>
            && |a| == |b|
            && forall i | 0 <= i < |a| :: a[i] == b[i] || CapitalAndSmall(a[i], b[i]) || CapitalAndSmall(b[i], a[i])
  {
    if |a| == |b| {
      forall i | 0 <= i < |a|
        ensures LowerChar(a[i]) == LowerChar(b[i])
                <==> a[i] == b[i] || CapitalAndSmall(a[i], b[i]) || CapitalAndSmall(b[i], a[i])
      {
      }
    }
  }

  /** Lower case is the same text ignoring case, without capitals. */
  lemma LowerHasNoCapitals(s: string)
    ensures SameIgnoringCase(Lower(s), s) && forall c | c in Lower(s) :: !('A' <= c <= 'Z')
  {
  }

  lemma {:induction false} TrimStartDrops(s: string) returns (i: nat)
    ensures i <= |s| && TrimStart(s) == s[i..] && Blank(s[..i]) && (i < |s| ==> !IsWhitespace(s[i]))
  {
    if s != [] && IsWhitespace(s[0]) {
      var j := TrimStartDrops(s[1..]);
      i := j + 1;
      assert s[..i] == [s[0]] + s[1..][..j];
    } else {
      i := 0;
    }
  }

  lemma {:induction false} TrimEndDrops(s: string) returns (j: nat)
    ensures j <= |s| && TrimEnd(s) == s[..j] && Blank(s[j..]) && (j > 0 ==> !IsWhitespace(s[j - 1]))
  {
    if s != [] && IsWhitespace(s[|s| - 1]) {
      var before := s[..|s| - 1];
      j := TrimEndDrops(before);
      assert s[j..] == before[j..] + [s[|s| - 1]];
      assert s[..j] == before[..j];
    } else {
      j := |s|;
    }
  }

  /** Trimming takes the white space off both ends, and nothing else. */
  lemma TrimDrops(s: string)
    ensures exists i, j | 0 <= i <= j <= |s| ::
              && Trim(s) == s[i..j] && Blank(s[..i]) && Blank(s[j..])
              && (i < j ==> !IsWhitespace(s[i]) && !IsWhitespace(s[j - 1]))
  {
    var i := TrimStartDrops(s);
    var n := TrimEndDrops(s[i..]);
    assert s[i..][n..] == s[i + n..] && s[i..][..n] == s[i..i + n];
    assert n > 0 ==> s[i..][n - 1] == s[i + n - 1];
  }

  function WithoutReturn(line: string): string
  {
    if line != [] && line[|line| - 1] == '\r' then line[..|line| - 1] else line
  }

  /** A line feed ends a line, with or without a carriage return before it. */
  lemma LineFeedEndsLine(line: string, rest: string)
    requires forall i | 0 <= i < |line| :: line[i] != '\n'
    ensures Lines(line + ("\n" + rest)) == [WithoutReturn(line)] + Lines(rest)
    ensures line != [] ==> Lines(line) == [line]
  {
    var s := line + ("\n" + rest);
    assert Find(s, '\n') == |line| by {
      assert s[|line|] == '\n';
      assert forall i | 0 <= i < |line| :: s[i] == line[i];
    }
    assert s[|line| + 1..] == rest && s[..|line|] == line;
    assert line != [] ==> s[..|line| - 1] == line[..|line| - 1] && s[|line| - 1] == line[|line| - 1];
  }

  // ---------------------------------------------------------------------- fields

  /** The line is a field of that name, in any case of letters. */
  predicate Field(line: string, name: string, value: string)
  {
    exists i | 0 <= i < |line| && line[i] == ':' ::
      && (forall j | 0 <= j < i :: line[j] != ':')
      && SameIgnoringCase(line[..i], name) && line[i + 1..] == value
  }

  lemma FieldIsSplit(line: string, name: string, value: string)
    ensures Field(line, name, value) <==>
            var split := SplitOnce(line, ':');
            split.Some? && SameIgnoringCase(split.value.0, name) && split.value.1 == value
  {
  }

  predicate InDigits(text: string, n: nat)
  {
    text != [] && (forall i | 0 <= i < |text| :: '0' <= text[i] <= '9') && Value(text) == n
  }

  /** A number in decimal, a plus sign before it or not, that fits a 64-bit word. */
  predicate Numeral(text: string, n: nat)
  {
    n < 0x1_0000_0000_0000_0000 && (InDigits(text, n) || (text != [] && text[0] == '+' && InDigits(text[1..], n)))
  }

  predicate GivesLength(line: string, n: nat)
  {
    exists i | 0 <= i < |line| && line[i] == ':' ::
      && Field(line, "content-length", line[i + 1..]) && Numeral(Trim(line[i + 1..]), n)
  }

  lemma LengthIsGiven(line: string, n: nat)
    ensures GivesLength(line, n) <==> LengthOnLine(line) == Some(n)
  {
    var i := Find(line, ':');
    if i < |line| {
      var value := line[i + 1..];
      FieldIsSplit(line, "content-length", value);
      NumeralIsParsed(Trim(value), n);
      if GivesLength(line, n) {
        var k :| 0 <= k < |line| && line[k] == ':' && Field(line, "content-length", line[k + 1..])
                 && Numeral(Trim(line[k + 1..]), n);
        FieldIsSplit(line, "content-length", line[k + 1..]);
      }
    }
  }

  lemma DigitsAreParsed(text: string, n: nat)
    ensures ParseDigits(text) == Some(n) <==> InDigits(text, n)
  {
    if forall i | 0 <= i < |text| :: '0' <= text[i] <= '9' {
      ValueOfDigits(text);
    }
  }

  lemma NumeralIsParsed(text: string, n: nat)
    ensures Numeral(text, n) <==> ParseUsize(text) == Some(n)
  {
    DigitsAreParsed(text, n);
    if text != [] {
      DigitsAreParsed(text[1..], n);
    }
    assert U64_MAX + 1 == 0x1_0000_0000_0000_0000;
  }

  /** The body is as long as the first line says that gives a length, whatever it
      stands between; zero if none does. */
  lemma {:induction false} FirstLengthDecides(lines: seq<string>)
    ensures var n := ContentLength(lines);
            || (exists i | 0 <= i < |lines| ::
                  GivesLength(lines[i], n) && forall j, m: nat | 0 <= j < i :: !GivesLength(lines[j], m))
            || (n == 0 && forall j, m: nat | 0 <= j < |lines| :: !GivesLength(lines[j], m))
  {
    if lines != [] {
      forall m: nat
        ensures GivesLength(lines[0], m) <==> LengthOnLine(lines[0]) == Some(m)
      {
        LengthIsGiven(lines[0], m);
      }
      if LengthOnLine(lines[0]).None? {
        var rest, n := lines[1..], ContentLength(lines);
        FirstLengthDecides(rest);
        if i :| 0 <= i < |rest| && GivesLength(rest[i], n)
                && forall j, m: nat | 0 <= j < i :: !GivesLength(rest[j], m) {
          assert GivesLength(lines[i + 1], n);
          assert forall j, m: nat | 0 < j < i + 1 :: GivesLength(lines[j], m) ==> GivesLength(rest[j - 1], m);
        } else {
          assert forall j, m: nat | 0 < j < |lines| :: GivesLength(lines[j], m) ==> GivesLength(rest[j - 1], m);
        }
      }
    }
  }

  /** The name under which a line is kept, in lower case, if it is a field. */
  predicate KeptUnder(line: string, key: string)
  {
    SplitOnce(line, ':').Some? && Lower(Trim(SplitOnce(line, ':').value.0)) == key
  }

  /** The i-th line is the last one kept under that name. */
  predicate LastUnder(lines: seq<string>, key: string, i: nat)
  {
    i < |lines| && KeptUnder(lines[i], key) && forall j | i < j < |lines| :: !KeptUnder(lines[j], key)
  }

  lemma LastUnderOneMore(lines: seq<string>, line: string, key: string, i: nat)
    ensures LastUnder(lines + [line], key, i) <==>
            if KeptUnder(line, key) then i == |lines| else LastUnder(lines, key, i)
  {
    var all := lines + [line];
    assert all[|lines|] == line && forall j | 0 <= j < |lines| :: all[j] == lines[j];
  }

  /** Of fields with one name, in any case of letters, the last one is kept. */
  lemma {:induction false} LastFieldIsKept(lines: seq<string>, key: string)
    ensures key in HeaderMap(lines) <==> exists i: nat :: LastUnder(lines, key, i)
    ensures forall i: nat | LastUnder(lines, key, i) ::
              key in HeaderMap(lines) && HeaderMap(lines)[key] == Trim(SplitOnce(lines[i], ':').value.1)
  {
    if lines != [] {
      var before, line := lines[..|lines| - 1], lines[|lines| - 1];
      LastFieldIsKept(before, key);
      assert lines == before + [line];
      forall i: nat
        ensures LastUnder(lines, key, i) <==> if KeptUnder(line, key) then i == |before| else LastUnder(before, key, i)
      {
        LastUnderOneMore(before, line, key, i);
      }
      assert KeptUnder(line, key) ==> LastUnder(lines, key, |before|);
      if i: nat :| LastUnder(before, key, i) {
        assert !KeptUnder(line, key) ==> LastUnder(lines, key, i);
      }
    }
  }

  // ------------------------------------------------------------ how a reading ends

  /** A blank line begins at i: two line breaks in a row. */
  predicate BlankLineAt(stream: Bytes, i: nat)
  {
    i + 4 <= |stream| && stream[i] == 13 && stream[i + 1] == 10 && stream[i + 2] == 13 && stream[i + 3] == 10
  }

  lemma BlankLineEnds(stream: Bytes, i: nat)
    ensures BlankLineAt(stream, i) <==> EndsHeaders(stream, i + 4)
  {
    if i + 4 <= |stream| {
      var w := stream[i..i + 4];
      assert w[0] == stream[i] && w[1] == stream[i + 1] && w[2] == stream[i + 2] && w[3] == stream[i + 3];
    }
  }

  /** The first blank line begins at i. */
  ghost predicate FirstBlankLine(stream: Bytes, i: nat)
  {
    BlankLineAt(stream, i) && forall j: nat | j < i :: !BlankLineAt(stream, j)
  }

  lemma HeadersEndThere(stream: Bytes, i: nat)
    ensures FirstBlankLine(stream, i) <==> HeaderEnd(stream) == Some(i + 4)
    ensures HeaderEnd(stream).Some? ==> HeaderEnd(stream).value >= 4
  {
    BlankLineEnds(stream, i);
    forall j: nat
      ensures BlankLineAt(stream, j) <==> EndsHeaders(stream, j + 4)
    {
      BlankLineEnds(stream, j);
    }
    if HeaderEnd(stream).Some? {
      assert BlankLineAt(stream, HeaderEnd(stream).value - 4);
    }
  }

  /** Without a blank line, the peer has closed between requests or within headers. */
  lemma NoBlankLineNoRequest(decode: Decoder, stream: Bytes)
    requires forall i: nat :: !FirstBlankLine(stream, i)
    ensures Next(decode, stream) == (if stream == [] then Closed else TornHeaders, stream)
  {
    HeadersEndThere(stream, 0);
    if HeaderEnd(stream).Some? {
      HeadersEndThere(stream, HeaderEnd(stream).value - 4);
    }
  }

  /** With one, the peer has closed within the body, or the request line has too few
      words, or there is a request, with exactly the bytes announced as its body. */
  lemma HowReadingEnds(decode: Decoder, stream: Bytes, i: nat)
    requires FirstBlankLine(stream, i)
    ensures var (outcome, rest) := Next(decode, stream);
            var lines := Lines(decode(stream[..i + 4]));
            var end := i + 4 + ContentLength(lines);
            && !outcome.Closed? && !outcome.TornHeaders?
            && (outcome.TornBody? <==> |stream| < end)
            && (outcome.BadRequestLine? <==> |stream| >= end && (lines == [] || |Words(lines[0])| < 3))
            && (outcome.Got? ==> |stream| >= end && outcome.request.body == stream[i + 4..end] && rest == stream[end..])
            && (!outcome.Got? ==> rest == stream)
  {
    HeadersEndThere(stream, i);
  }
}
