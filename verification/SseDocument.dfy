/**
 What the incremental parser means for a whole stream: a reference that reads the complete input
 line by line (section 9.2.6 of the WHATWG HTML standard), independence from the read chunks, and
 the round trip through the raw bytes of the emitted records.
 */
module SseDocument {
  import opened Common
  import opened SseParser

  /** The first line break of b, or |b|. */
  function FirstBreak(b: Bytes): (i: nat)
    ensures i <= |b| && Plain(b[..i])
    ensures i < |b| ==> IsBreak(b[i])
  {
    if b == "" || IsBreak(b[0]) then 0 else
    var i := 1 + FirstBreak(b[1..]);
    assert forall k | 0 < k < i :: b[k] == b[1..][k - 1];
    i
  }

  /** CRLF is one line terminator; CR and LF alone are one each. */
  function BreakLength(b: Bytes, i: nat): (n: nat)
    requires i < |b|
    ensures 1 <= n <= |b| - i
  {
    if b[i] == '\r' && i + 1 < |b| && b[i + 1] == '\n' then 2 else 1
  }

  datatype Parsed = Parsed(events: seq<Event>, failed: bool)

  /** The rest of a document, at the start of a line: `raw` and `cur` belong to the frame so far. */
  function Lines(max: int, b: Bytes, raw: Bytes, started: bool, cur: Cur): Parsed
    decreases |b|
  {
    var i := FirstBreak(b);
    if i == |b| then Parsed([], !Fits(max, |raw| + |b|)) else
    var n := i + BreakLength(b, i);
    var frame := raw + b[..n];
    var line := if started then b[..i] else StripBom(b[..i]);
    if !Fits(max, |frame|) then Parsed([], true)
    else if line == "" then
      var rest := Lines(max, b[n..], "", true, NO_RECORD);
      Parsed((if cur.has then [Event(cur.name, cur.data, frame)] else []) + rest.events, rest.failed)
    else Lines(max, b[n..], frame, true, Field(cur, line))
  }

  function Document(max: int, b: Bytes): Parsed {
    Lines(max, b, "", false, NO_RECORD)
  }

  // ------------------------------------------------- the machine meets the reference ----

  /** One complete line with its whole terminator, read from the start of that line. */
  lemma FeedLine(max: int, s: State, b: Bytes, i: nat, n: nat)
    requires s.Live? && !s.cr && s.line == "" && Fits(max, |s.raw|)
    requires i == FirstBreak(b) < |b| && n == i + BreakLength(b, i)
    ensures var t := s.(raw := s.raw + b[..n], line := b[..i]);
      Feed(max, s, b, true)
      == if Fits(max, |t.raw|) then After(EndLine(t).events, Feed(max, EndLine(t).state, b[n..], true)) else Out(Failed, [])
  {
    if b[i] == '\r' {
      FeedCrLine(max, s, b, i, n);
    } else {
      FeedLfLine(max, s, b, i);
    }
  }

  lemma FeedLfLine(max: int, s: State, b: Bytes, i: nat)
    requires s.Live? && !s.cr && s.line == "" && Fits(max, |s.raw|)
    requires i == FirstBreak(b) < |b| && b[i] == '\n'
    ensures var t := s.(raw := s.raw + b[..i + 1], line := b[..i]);
      Feed(max, s, b, true)
      == if Fits(max, |t.raw|) then After(EndLine(t).events, Feed(max, EndLine(t).state, b[i + 1..], true)) else Out(Failed, [])
  {
    FeedSegment(max, s, b, true, i);
    SegmentLf(max, s, b, i);
    FeedFailed(max, b[i + 1..], true);
  }

  lemma SegmentLf(max: int, s: State, b: Bytes, i: nat)
    requires s.Live? && s.line == "" && i < |b| && b[i] == '\n'
    ensures var t := s.(raw := s.raw + b[..i + 1], line := b[..i]);
      Segment(max, s, b, i) == if Fits(max, |t.raw|) then EndLine(t) else Out(Failed, [])
  {
    EmptyPlus(b[..i]);
  }

  /** Up to the CR of a line: the machine is waiting for an optional LF. */
  lemma FeedToCr(max: int, s: State, b: Bytes, i: nat)
    requires s.Live? && !s.cr && s.line == "" && Fits(max, |s.raw|)
    requires i == FirstBreak(b) < |b| && b[i] == '\r'
    ensures Feed(max, s, b, true)
      == if Fits(max, |s.raw| + i + 1)
         then Feed(max, s.(raw := s.raw + b[..i + 1], line := b[..i], cr := true), b[i + 1..], true)
         else Out(Failed, [])
  {
    var rest := b[i + 1..];
    FeedSegment(max, s, b, true, i);
    assert s.line + b[..i] == b[..i];
    if Fits(max, |s.raw| + i + 1) {
      AfterAfter([], [], Feed(max, s.(raw := s.raw + b[..i + 1], line := b[..i], cr := true), rest, true));
    } else {
      FeedFailed(max, rest, true);
    }
  }

  lemma CrlfSlices(raw: Bytes, b: Bytes, i: nat)
    requires i + 1 < |b| && b[i + 1] == '\n'
    ensures b[i + 1..] != "" && b[i + 1..][0] == '\n' && b[i + 1..][1..] == b[i + 2..]
    ensures (raw + b[..i + 1]) + ['\n'] == raw + b[..i + 2]
  {
  }

  lemma FeedCrLine(max: int, s: State, b: Bytes, i: nat, n: nat)
    requires s.Live? && !s.cr && s.line == "" && Fits(max, |s.raw|)
    requires i == FirstBreak(b) < |b| && n == i + BreakLength(b, i) && b[i] == '\r'
    ensures var t := s.(raw := s.raw + b[..n], line := b[..i]);
      Feed(max, s, b, true)
      == if Fits(max, |t.raw|) then After(EndLine(t).events, Feed(max, EndLine(t).state, b[n..], true)) else Out(Failed, [])
  {
    FeedToCr(max, s, b, i);
    if Fits(max, |s.raw| + i + 1) {
      var u := s.(raw := s.raw + b[..i + 1], line := b[..i], cr := true);
      FeedAfterCr(max, u, b[i + 1..]);
      if n == i + 2 {
        CrlfSlices(s.raw, b, i);
        EndLineCr(u.(raw := s.raw + b[..n]));
      } else {
        EndLineCr(u);
      }
    }
  }

  /** A pending CR plays no part in what the line means. */
  lemma EndLineCr(u: State)
    requires u.Live?
    ensures EndLine(u) == EndLine(u.(cr := false))
  {
  }

  lemma FeedAfterCr(max: int, u: State, rest: Bytes)
    requires u.Live? && u.cr && Fits(max, |u.raw|)
    ensures Feed(max, u, rest, true)
      == if rest != "" && rest[0] == '\n' then
           var t := u.(raw := u.raw + ['\n']);
           if Fits(max, |t.raw|) then After(EndLine(t).events, Feed(max, EndLine(t).state, rest[1..], true)) else Out(Failed, [])
         else After(EndLine(u).events, Feed(max, EndLine(u).state, rest, true))
  {
    if rest != "" && rest[0] == '\n' {
      FeedStep(max, u, rest, true);
      FeedFailed(max, rest[1..], true);
    } else {
      FeedClosed(max, u, rest, true);
    }
  }

  /** One line of the reference. */
  lemma LinesUnfold(max: int, b: Bytes, raw: Bytes, started: bool, cur: Cur, i: nat, n: nat)
    requires i == FirstBreak(b) < |b| && n == i + BreakLength(b, i)
    ensures var frame, line := raw + b[..n], if started then b[..i] else StripBom(b[..i]);
      Lines(max, b, raw, started, cur)
      == if !Fits(max, |frame|) then Parsed([], true)
         else if line == "" then
           var rest := Lines(max, b[n..], "", true, NO_RECORD);
           Parsed((if cur.has then [Event(cur.name, cur.data, frame)] else []) + rest.events, rest.failed)
         else Lines(max, b[n..], frame, true, Field(cur, line))
  {
  }

  lemma EndLineIs(s: State, frame: Bytes, text: Bytes)
    requires s.Live?
    ensures var line := if s.started then text else StripBom(text);
      var o := EndLine(s.(raw := frame, line := text));
      if line == "" then o == Out(Fresh(true), if s.cur.has then [Event(s.cur.name, s.cur.data, frame)] else [])
      else o == Out(Live(frame, "", false, true, Field(s.cur, line)), [])
  {
  }

  /** The reference reads one line as the machine does. */
  lemma LinesStep(max: int, b: Bytes, s: State, i: nat, n: nat)
    requires s.Live? && i == FirstBreak(b) < |b| && n == i + BreakLength(b, i)
    ensures var t := s.(raw := s.raw + b[..n], line := b[..i]);
      var u := EndLine(t).state;
      Lines(max, b, s.raw, s.started, s.cur)
      == if !Fits(max, |t.raw|) then Parsed([], true)
         else
           var rest := Lines(max, b[n..], u.raw, u.started, u.cur);
           Parsed(EndLine(t).events + rest.events, rest.failed)
  {
    var frame := s.raw + b[..n];
    EndLineIs(s, frame, b[..i]);
    LinesUnfold(max, b, s.raw, s.started, s.cur, i, n);
    var line := if s.started then b[..i] else StripBom(b[..i]);
    if line != "" {
      EmptyPlus(Lines(max, b[n..], frame, true, Field(s.cur, line)).events);
    }
  }

  lemma {:induction false} FeedIsLines(max: int, s: State, b: Bytes)
    requires s.Live? && !s.cr && s.line == "" && Fits(max, |s.raw|)
    ensures var o := Feed(max, s, b, true);
      Parsed(o.events, o.state.Failed?) == Lines(max, b, s.raw, s.started, s.cur)
    decreases |b|
  {
    var i := FirstBreak(b);
    if i == |b| {
      assert b[..i] == b;
      RunPlain(max, s, b);
    } else {
      var n := i + BreakLength(b, i);
      var t := s.(raw := s.raw + b[..n], line := b[..i]);
      FeedLine(max, s, b, i, n);
      LinesStep(max, b, s, i, n);
      if Fits(max, |t.raw|) {
        FeedIsLines(max, EndLine(t).state, b[n..]);
      }
    }
  }

  /** Reading in chunks: every read feeds one chunk, and the last one carries the end of input. */
  function FeedChunks(max: int, s: State, chunks: seq<Bytes>): Out
    requires chunks != []
    decreases |chunks|
  {
    if |chunks| == 1 then Feed(max, s, chunks[0], true) else
    var first := Feed(max, s, chunks[0], false);
    After(first.events, FeedChunks(max, first.state, chunks[1..]))
  }

  lemma {:induction false} FeedChunksIsFeed(max: int, s: State, chunks: seq<Bytes>)
    requires chunks != []
    ensures FeedChunks(max, s, chunks) == Feed(max, s, Concat(chunks), true)
    decreases |chunks|
  {
    if |chunks| == 1 {
      ConcatOne(chunks[0]);
      assert chunks == [chunks[0]];
    } else {
      FeedChunksIsFeed(max, Feed(max, s, chunks[0], false).state, chunks[1..]);
      FeedSplit(max, s, chunks[0], Concat(chunks[1..]), true);
    }
  }

  /** However a stream is cut into reads, the parser emits the records of the whole document and
      fails exactly when the document has a frame over the limit. */
  lemma ChunkInvariance(max: int, chunks: seq<Bytes>)
    requires chunks != []
    ensures var o := FeedChunks(max, Fresh(false), chunks);
      o.events == Document(max, Concat(chunks)).events && (o.state.Failed? <==> Document(max, Concat(chunks)).failed)
  {
    FeedChunksIsFeed(max, Fresh(false), chunks);
    FeedIsLines(max, Fresh(false), Concat(chunks));
  }
}
