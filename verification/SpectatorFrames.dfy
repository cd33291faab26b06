/** The spectator stream: a bounded buffer of numbered frames, read page by page
    through a cursor while new frames keep arriving. */
module SpectatorFrames {
  import opened Wrappers
  import opened Numbers

  const MAX_FRAMES: nat := 512
  const MAX_BYTES: nat := 32 * 1024 * 1024
  const PAGE_SIZE: nat := 128

  datatype Frame = Frame(sequence: nat, size: nat, body: string)

  /** `history` lists every frame ever recorded; the buffer keeps its end. */
  datatype Buffer = Buffer(sequence: nat, bytes: nat, frames: seq<Frame>, history: seq<Frame>)

  function Sizes(frames: seq<Frame>): nat
  {
    if frames == [] then 0 else frames[0].size + Sizes(frames[1..])
  }

  predicate TooLarge(bytes: nat, frames: seq<Frame>)
  {
    |frames| > MAX_FRAMES || (bytes > MAX_BYTES && |frames| > 1)
  }

  predicate Suffix(a: seq<Frame>, b: seq<Frame>)
  {
    |a| <= |b| && forall i | 0 <= i < |a| :: a[i] == b[|b| - |a| + i]
  }

  /** Frames leave from the front while the buffer is too large. */
  function Evicted(frames: seq<Frame>): (kept: seq<Frame>)
    ensures !TooLarge(Sizes(kept), kept) && (frames != [] ==> kept != [])
  {
    if TooLarge(Sizes(frames), frames) then Evicted(frames[1..]) else frames
  }

  lemma {:induction false} EvictedIsSuffix(frames: seq<Frame>)
    ensures Suffix(Evicted(frames), frames)
  {
    if TooLarge(Sizes(frames), frames) {
      EvictedIsSuffix(frames[1..]);
      SuffixTwice(Evicted(frames), frames[1..], frames);
    }
  }

  function Recorded(b: Buffer, size: nat, body: string): Buffer
  {
    var frame := Frame(b.sequence + 1, size, body);
    var kept := Evicted(b.frames + [frame]);
    Buffer(b.sequence + 1, Sizes(kept), kept, b.history + [frame])
  }

  predicate Numbered(history: seq<Frame>)
  {
    forall i | 0 <= i < |history| :: history[i].sequence == i + 1
  }

  lemma NumberedAppend(history: seq<Frame>, frame: Frame)
    requires Numbered(history) && frame.sequence == |history| + 1
    ensures Numbered(history + [frame])
  {
  }

  ghost predicate Valid(b: Buffer)
  {
    && |b.history| == b.sequence && Numbered(b.history)
    && Suffix(b.frames, b.history)
    && b.bytes == Sizes(b.frames) && !TooLarge(b.bytes, b.frames) && (b.sequence > 0 ==> b.frames != [])
  }

  lemma RecordKeepsValid(b: Buffer, size: nat, body: string)
    requires Valid(b)
    ensures Valid(Recorded(b, size, body))
    ensures var frames := Recorded(b, size, body).frames; frames[|frames| - 1] == Frame(b.sequence + 1, size, body)
  {
    var frame := Frame(b.sequence + 1, size, body);
    var all := b.frames + [frame];
    var kept := Evicted(all);
    AppendSuffix(b.frames, b.history, frame);
    EvictedIsSuffix(all);
    SuffixTwice(kept, all, b.history + [frame]);
    NumberedAppend(b.history, frame);
  }

  /** The last n frames. */
  function End(frames: seq<Frame>, n: nat): seq<Frame>
    requires n <= |frames|
  {
    frames[|frames| - n..]
  }

  lemma {:induction false} EvictedIsLongest(frames: seq<Frame>, n: nat)
    requires |Evicted(frames)| < n <= |frames|
    ensures TooLarge(Sizes(End(frames, n)), End(frames, n)) && n > 1
  {
    if n == |frames| {
      assert End(frames, n) == frames;
    } else {
      assert End(frames, n) == End(frames[1..], n);
      EvictedIsLongest(frames[1..], n);
    }
  }

  /** Nothing is evicted needlessly: what is kept is the longest end of the old
      frames with the new one that has at most 512 frames and at most 32 MiB, or the
      new frame alone if not even that fits. */
  lemma RecordKeepsLongestEnd(b: Buffer, size: nat, body: string)
    requires Valid(b)
    ensures var all, kept := b.frames + [Frame(b.sequence + 1, size, body)], Recorded(b, size, body).frames;
            && 1 <= |kept| <= |all| && kept == End(all, |kept|)
            && (|kept| == 1 || (|kept| <= 512 && Sizes(kept) <= 33_554_432))
            && (forall n | |kept| < n <= |all| :: n > 512 || Sizes(End(all, n)) > 33_554_432)
            && (|all| <= 512 && Sizes(all) <= 33_554_432 ==> kept == all)
  {
    var all := b.frames + [Frame(b.sequence + 1, size, body)];
    EvictedIsSuffix(all);
    forall n | |Evicted(all)| < n <= |all|
      ensures n > 512 || Sizes(End(all, n)) > 33_554_432
    {
      EvictedIsLongest(all, n);
    }
    assert End(all, |all|) == all;
  }

  /** What a valid buffer is: a contiguous run of numbers that ends with the
      newest, with an exact byte total, within both bounds. */
  lemma BufferIsContiguous(b: Buffer)
    requires Valid(b)
    ensures forall i | 0 <= i < |b.frames| :: b.frames[i].sequence == b.sequence - |b.frames| + 1 + i
    ensures b.bytes == Sizes(b.frames) && |b.frames| <= MAX_FRAMES && (b.bytes <= MAX_BYTES || |b.frames| <= 1)
  {
  }

  /** After any recordings from the empty buffer. */
  lemma {:induction false} EveryBufferIsValid(b: Buffer, frames: seq<(nat, string)>)
    requires Valid(b)
    ensures Valid(RecordedAll(b, frames)) && RecordedAll(b, frames).sequence == b.sequence + |frames|
    decreases frames
  {
    if frames != [] {
      RecordKeepsValid(b, frames[0].0, frames[0].1);
      EveryBufferIsValid(Recorded(b, frames[0].0, frames[0].1), frames[1..]);
    }
  }

  function RecordedAll(b: Buffer, frames: seq<(nat, string)>): Buffer
    decreases frames
  {
    if frames == [] then b else RecordedAll(Recorded(b, frames[0].0, frames[0].1), frames[1..])
  }

  lemma AppendSuffix(a: seq<Frame>, b: seq<Frame>, frame: Frame)
    requires Suffix(a, b)
    ensures Suffix(a + [frame], b + [frame])
  {
  }

  lemma SuffixTwice(a: seq<Frame>, b: seq<Frame>, c: seq<Frame>)
    requires Suffix(a, b) && Suffix(b, c)
    ensures Suffix(a, c)
  {
  }

  // ------------------------------------------------------------------- pages

  datatype Page = Page(frames: seq<Frame>, firstSequence: nat, latestSequence: nat, hasMore: bool, truncated: bool)

  function Later(frames: seq<Frame>, cursor: nat): seq<Frame>
  {
    if frames == [] then []
    else if frames[0].sequence > cursor then [frames[0]] + Later(frames[1..], cursor)
    else Later(frames[1..], cursor)
  }

  function Read(kept: seq<Frame>, latest: nat, after: Option<nat>): Page
  {
    var first := if kept == [] then 0 else kept[0].sequence;
    var frames := match after
      case Some(cursor) => var later := Later(kept, cursor); later[..Min(PAGE_SIZE, |later|)]
      case None => if kept == [] then [] else [kept[|kept| - 1]];
    var last := if frames != [] then frames[|frames| - 1].sequence else if after.Some? then after.value else 0;
    Page(frames, first, latest, after.Some? && last < latest, after.Some? && Min(after.value + 1, U64_MAX) < first)
  }

  function PageAfter(b: Buffer, cursor: nat): Page
  {
    Read(b.frames, b.sequence, Some(cursor))
  }

  /** Without a cursor the client is given the newest frame, and its number. */
  lemma FirstPageIsNewest(b: Buffer)
    requires Valid(b)
    ensures Read(b.frames, b.sequence, None).frames == if b.sequence == 0 then [] else [b.history[b.sequence - 1]]
  {
  }

  lemma {:induction false} LaterIsSuffix(frames: seq<Frame>, start: nat, cursor: nat)
    requires forall i | 0 <= i < |frames| :: frames[i].sequence == start + i + 1
    ensures Later(frames, cursor) == if cursor <= start then frames else if cursor - start <= |frames|
            then frames[cursor - start..] else []
    decreases |frames|
  {
    if frames != [] {
      LaterIsSuffix(frames[1..], start + 1, cursor);
      assert frames == [frames[0]] + frames[1..];
    }
  }

  /** A page asked for behind a cursor: it says `truncated` exactly when a frame
      behind the cursor has been evicted, and otherwise holds exactly the next
      frames (at most 128 of them); `hasMore` says whether any are left. */
  lemma PageHoldsNextFrames(b: Buffer, cursor: nat)
    requires Valid(b) && cursor <= U64_MAX && b.sequence <= U64_MAX
    ensures var page := PageAfter(b, cursor);
            && (page.truncated <==> exists i | 0 <= i < |b.history| ::
                b.history[i].sequence > cursor && b.history[i] !in b.frames)
            && (!page.truncated ==>
                  && page.frames == (if cursor <= |b.history|
                                     then b.history[cursor..Min(cursor + PAGE_SIZE, |b.history|)] else [])
                  && (page.hasMore <==> cursor + |page.frames| < |b.history|))
  {
    TruncatedIffEvicted(b, cursor);
    if cursor >= |b.history| - |b.frames| {
      NextFrames(b, cursor);
    }
  }

  lemma TruncatedIffEvicted(b: Buffer, cursor: nat)
    requires Valid(b) && cursor <= U64_MAX && b.sequence <= U64_MAX
    ensures PageAfter(b, cursor).truncated <==> cursor < |b.history| - |b.frames|
    ensures cursor < |b.history| - |b.frames| <==>
            exists i | 0 <= i < |b.history| :: b.history[i].sequence > cursor && b.history[i] !in b.frames
  {
    var start := |b.history| - |b.frames|;
    assert forall i | 0 <= i < |b.frames| :: b.frames[i] == b.history[start + i];
    if cursor < start {
      assert b.history[cursor].sequence > cursor && b.history[cursor] !in b.frames;
    } else {
      assert forall i | 0 <= i < |b.history| && b.history[i].sequence > cursor :: b.frames[i - start] == b.history[i];
    }
  }

  /** A page of the kept part of a list is a page of the list. */
  lemma PageOfSuffix(all: seq<Frame>, kept: seq<Frame>, cursor: nat, n: nat)
    requires Suffix(kept, all) && |all| - |kept| <= cursor <= |all|
    ensures var later := kept[cursor - (|all| - |kept|)..];
            later[..Min(n, |later|)] == all[cursor..Min(cursor + n, |all|)]
  {
  }

  lemma PageEnds(history: seq<Frame>, cursor: nat, end: nat)
    requires Numbered(history) && cursor < end <= |history|
    ensures history[cursor..end][end - cursor - 1].sequence == end
  {
  }

  lemma NextFrames(b: Buffer, cursor: nat)
    requires Valid(b) && cursor >= |b.history| - |b.frames|
    ensures var page := PageAfter(b, cursor);
            && page.frames == (if cursor <= |b.history| then b.history[cursor..Min(cursor + PAGE_SIZE, |b.history|)]
                               else [])
            && (page.hasMore <==> cursor + |page.frames| < |b.history|)
  {
    BufferIsContiguous(b);
    LaterIsSuffix(b.frames, |b.history| - |b.frames|, cursor);
    if cursor <= |b.history| {
      PageOfSuffix(b.history, b.frames, cursor, PAGE_SIZE);
      var end := Min(cursor + PAGE_SIZE, |b.history|);
      if cursor < end {
        PageEnds(b.history, cursor, end);
      }
    }
  }

  // ------------------------------------------------------------- the object

  class SpectatorStream {
    var sequence: nat
    var bytes: nat
    var frames: seq<Frame>
    ghost var history: seq<Frame>

    constructor ()
      ensures State() == Buffer(0, 0, [], []) && Valid(State())
    {
      sequence, bytes, frames, history := 0, 0, [], [];
    }

    ghost function State(): Buffer
      reads this
    {
      Buffer(sequence, bytes, frames, history)
    }

    method RecordSpectator(size: nat, body: string)
      requires Valid(State())
      modifies this
      ensures State() == Recorded(old(State()), size, body) && Valid(State())
      ensures |old(frames)| < 512 && old(bytes) + size <= 33_554_432 ==>
                frames == old(frames) + [Frame(sequence, size, body)]
    {
      ghost var before := State();
      sequence := sequence + 1;
      var frame := Frame(sequence, size, body);
      SizesAppend(frames, frame);
      bytes := bytes + size;
      frames := frames + [frame];
      history := history + [frame];
      ghost var all := frames;
      while |frames| > MAX_FRAMES || (bytes > MAX_BYTES && |frames| > 1)
        invariant sequence == before.sequence + 1 && history == before.history + [frame]
        invariant bytes == Sizes(frames) && Evicted(all) == Evicted(frames)
        decreases |frames|
      {
        bytes := bytes - frames[0].size;
        frames := frames[1..];
      }
      assert Evicted(all) == frames && all == before.frames + [frame];
      assert State() == Recorded(before, size, body);
      RecordKeepsValid(before, size, body);
      RecordKeepsLongestEnd(before, size, body);
    }
  }

  lemma {:induction false} SizesAppend(frames: seq<Frame>, frame: Frame)
    ensures Sizes(frames + [frame]) == Sizes(frames) + frame.size
  {
    if frames != [] {
      assert (frames + [frame])[1..] == frames[1..] + [frame];
      SizesAppend(frames[1..], frame);
    }
  }

  // ------------------------------------------------------------ paging runs

  /** A client that asks again with the number of the last frame it was given. */
  datatype Client = Client(cursor: nat, received: seq<Frame>, sawTruncated: bool)

  datatype Step = Record(size: nat, body: string) | Poll

  function Polled(b: Buffer, c: Client): Client
  {
    var page := PageAfter(b, c.cursor);
    Client(if page.frames != [] then page.frames[|page.frames| - 1].sequence else c.cursor,
           c.received + page.frames, c.sawTruncated || page.truncated)
  }

  function Follow(b: Buffer, c: Client, steps: seq<Step>): (Buffer, Client)
    decreases steps
  {
    if steps == [] then (b, c)
    else match steps[0]
         case Record(size, body) => Follow(Recorded(b, size, body), c, steps[1..])
         case Poll => Follow(b, Polled(b, c), steps[1..])
  }

  /** The client holds exactly the frames from its start up to its cursor. */
  ghost predicate UpToDate(b: Buffer, c: Client, start: nat)
  {
    !c.sawTruncated ==> start <= c.cursor <= |b.history| && c.received == b.history[start..c.cursor]
  }

  lemma PollKeepsUpToDate(b: Buffer, c: Client, start: nat)
    requires Valid(b) && b.sequence <= U64_MAX && UpToDate(b, c, start)
    ensures UpToDate(b, Polled(b, c), start)
    ensures !Polled(b, c).sawTruncated && !PageAfter(b, c.cursor).hasMore ==> Polled(b, c).cursor == |b.history|
  {
    if !Polled(b, c).sawTruncated {
      TruncatedIffEvicted(b, c.cursor);
      NextFrames(b, c.cursor);
    }
  }

  /** Whatever is recorded between its polls, a client that never sees
      `truncated` has received every frame after its first cursor up to its last
      one, each exactly once and in order. */
  lemma {:induction false} PagingReceivesEveryFrame(b: Buffer, c: Client, steps: seq<Step>, start: nat)
    requires Valid(b) && b.sequence + |steps| <= U64_MAX && UpToDate(b, c, start)
    ensures var (b', c') := Follow(b, c, steps); Valid(b') && UpToDate(b', c', start)
    decreases steps
  {
    if steps != [] {
      match steps[0] {
        case Record(size, body) =>
          RecordKeepsValid(b, size, body);
          var b1 := Recorded(b, size, body);
          PagingReceivesEveryFrame(b1, c, steps[1..], start);
        case Poll =>
          PollKeepsUpToDate(b, c, start);
          PagingReceivesEveryFrame(b, Polled(b, c), steps[1..], start);
      }
    }
  }
}
