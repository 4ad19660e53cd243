/**
 The incremental SSE parser (sse.go, sseParser): a byte-step specification of the resumable
 machine, and the class whose methods work on whole segments and keep the parser's own fields.
 */
module SseParser {
  import opened Common

  /** One emitted record with the exact bytes it was read from. */
  datatype Event = Event(name: Bytes, data: Bytes, raw: Bytes)

  /** The record being accumulated. */
  datatype Cur = Cur(has: bool, hasData: bool, name: Bytes, data: Bytes)

  const NO_RECORD := Cur(false, false, "", "")

  const BOM: Bytes := "\U{EF}\U{BB}\U{BF}"

  /** The machine between two bytes. `raw` is the whole frame so far, `line` the current line
      without its terminator, and `cr` says that a final CR still waits for an optional LF. */
  datatype State =
    | Failed
    | Live(raw: Bytes, line: Bytes, cr: bool, started: bool, cur: Cur)

  datatype Out = Out(state: State, events: seq<Event>)

  function Fresh(started: bool): State {
    Live("", "", false, started, NO_RECORD)
  }

  /** A limit that is not positive means "unbounded". */
  predicate Fits(max: int, n: nat) {
    max > 0 ==> n <= max
  }

  predicate IsBreak(c: char) {
    c == '\r' || c == '\n'
  }

  predicate Plain(s: Bytes) {
    forall i | 0 <= i < |s| :: !IsBreak(s[i])
  }

  function StripBom(line: Bytes): Bytes {
    if BOM <= line then line[|BOM|..] else line
  }

  /** The effect of one non-empty line on the record: a comment changes nothing. */
  function Field(cur: Cur, line: Bytes): Cur
    requires line != ""
  {
    if line[0] == ':' then cur else
    var j := IndexOf(line, ':');
    var after := if j < |line| then line[j + 1..] else "";
    var value := if after != "" && after[0] == ' ' then after[1..] else after;
    match line[..j]
    case "event" => cur.(has := true, name := value)
    case "data" =>
      cur.(has := true, hasData := true, data := cur.data + (if cur.hasData then "\n" else "") + value)
    case _ => cur.(has := true)
  }

  /** End of a line: an empty line ends the frame, emitting the record if there is one. */
  function EndLine(s: State): Out
    requires s.Live?
  {
    var line := if s.started then s.line else StripBom(s.line);
    if line == "" then
      Out(Fresh(true), if s.cur.has then [Event(s.cur.name, s.cur.data, s.raw)] else [])
    else
      Out(Live(s.raw, "", false, true, Field(s.cur, line)), [])
  }

  /** Consume one byte when no CR is pending. */
  function Push(max: int, s: State, c: char): Out
    requires s.Live? && !s.cr
  {
    if !Fits(max, |s.raw| + 1) then Out(Failed, [])
    else if c == '\r' then Out(s.(raw := s.raw + [c], cr := true), [])
    else if c == '\n' then EndLine(s.(raw := s.raw + [c]))
    else Out(s.(raw := s.raw + [c], line := s.line + [c]), [])
  }

  function Step(max: int, s: State, c: char): Out {
    if s.Failed? then Out(s, [])
    else if s.cr && c == '\n' then
      if Fits(max, |s.raw| + 1) then EndLine(s.(raw := s.raw + [c])) else Out(Failed, [])
    else if s.cr then
      var closed := EndLine(s);
      var pushed := Push(max, closed.state, c);
      Out(pushed.state, closed.events + pushed.events)
    else Push(max, s, c)
  }

  function Run(max: int, s: State, b: Bytes): Out
    decreases |b|
  {
    if b == "" then Out(s, []) else
    var first := Step(max, s, b[0]);
    var rest := Run(max, first.state, b[1..]);
    Out(rest.state, first.events + rest.events)
  }

  /** End of input completes a pending CR line but never invents a blank line. */
  function Eof(s: State): Out {
    if s.Live? && s.cr then EndLine(s) else Out(s, [])
  }

  function Feed(max: int, s: State, b: Bytes, eof: bool): Out {
    var r := Run(max, s, b);
    if eof then
      var e := Eof(r.state);
      Out(e.state, r.events + e.events)
    else r
  }

  /** No partial frame is left: neither a record nor an unfinished line. */
  predicate AtFrameEnd(s: State) {
    s.Live? && !s.cur.has && s.line == "" && !s.cr
  }

  // ------------------------------------------------------------------ running ----

  lemma RunCons(max: int, s: State, b: Bytes)
    requires b != ""
    ensures Run(max, s, b) == After(Step(max, s, b[0]).events, Run(max, Step(max, s, b[0]).state, b[1..]))
  {
  }

  lemma {:induction false} RunSplit(max: int, s: State, a: Bytes, b: Bytes)
    ensures Run(max, s, a + b)
         == Out(Run(max, Run(max, s, a).state, b).state, Run(max, s, a).events + Run(max, Run(max, s, a).state, b).events)
    decreases |a|
  {
    if a == "" {
      assert a + b == b;
    } else {
      var o := Step(max, s, a[0]);
      assert (a + b)[1..] == a[1..] + b;
      RunSplit(max, o.state, a[1..], b);
      RunCons(max, s, a + b);
      RunCons(max, s, a);
      AfterAfter(o.events, Run(max, o.state, a[1..]).events, Run(max, Run(max, o.state, a[1..]).state, b));
    }
  }

  lemma RunOne(max: int, s: State, c: char)
    ensures Run(max, s, [c]) == Step(max, s, c)
  {
    assert [c][1..] == "";
    var o := Step(max, s, c);
    assert Run(max, o.state, "") == Out(o.state, []);
    assert o.events + [] == o.events;
  }

  lemma {:induction false} RunFailed(max: int, b: Bytes)
    ensures Run(max, Failed, b) == Out(Failed, [])
  {
    if b != "" {
      RunFailed(max, b[1..]);
    }
  }

  /** A segment without line breaks only extends the frame and the line, or fails as a whole. */
  lemma {:induction false} RunPlain(max: int, s: State, seg: Bytes)
    requires s.Live? && !s.cr && Plain(seg)
    requires Fits(max, |s.raw|)
    ensures Run(max, s, seg)
         == if Fits(max, |s.raw| + |seg|) then Out(s.(raw := s.raw + seg, line := s.line + seg), []) else Out(Failed, [])
    decreases |seg|
  {
    if seg == "" {
      assert s.raw + seg == s.raw && s.line + seg == s.line;
    } else {
      var c, rest := seg[0], seg[1..];
      RunCons(max, s, seg);
      PlainStep(max, s, c);
      if Fits(max, |s.raw| + 1) {
        var t := s.(raw := s.raw + [c], line := s.line + [c]);
        assert Plain(rest);
        RunPlain(max, t, rest);
        Shift(s.raw, seg);
        Shift(s.line, seg);
        AfterAfter([], [], Run(max, t, rest));
      } else {
        RunFailed(max, rest);
      }
    }
  }

  lemma PlainStep(max: int, s: State, c: char)
    requires s.Live? && !s.cr && !IsBreak(c)
    ensures Step(max, s, c)
         == if Fits(max, |s.raw| + 1) then Out(s.(raw := s.raw + [c], line := s.line + [c]), []) else Out(Failed, [])
  {
  }

  /** The outcome o with the earlier events put in front. */
  function After(events: seq<Event>, o: Out): Out {
    Out(o.state, events + o.events)
  }

  lemma AfterAfter(a: seq<Event>, b: seq<Event>, o: Out)
    ensures After([], o) == o
    ensures After(a, After(b, o)) == After(a + b, o)
  {
    assert a + (b + o.events) == (a + b) + o.events;
  }

  lemma FeedFailed(max: int, b: Bytes, eof: bool)
    ensures Feed(max, Failed, b, eof) == Out(Failed, [])
  {
    RunFailed(max, b);
  }

  lemma FeedStep(max: int, s: State, b: Bytes, eof: bool)
    requires b != ""
    ensures Feed(max, s, b, eof) == After(Step(max, s, b[0]).events, Feed(max, Step(max, s, b[0]).state, b[1..], eof))
  {
  }

  /** Ending a CR line early, before the next byte is known not to be LF, changes nothing. */
  lemma FeedClosed(max: int, s: State, b: Bytes, eof: bool)
    requires s.Live? && s.cr
    requires if b == "" then eof else b[0] != '\n'
    ensures Feed(max, s, b, eof) == After(EndLine(s).events, Feed(max, EndLine(s).state, b, eof))
  {
  }

  lemma FeedSplit(max: int, s: State, a: Bytes, b: Bytes, eof: bool)
    ensures Feed(max, s, a + b, eof) == After(Run(max, s, a).events, Feed(max, Run(max, s, a).state, b, eof))
  {
    RunSplit(max, s, a, b);
    var x := Run(max, s, a);
    var y := Run(max, x.state, b);
    AfterAfter(x.events, y.events, Eof(y.state));
  }

  /** What one segment does: the bytes before the first line break at i, and that break if any. */
  function Segment(max: int, s: State, b: Bytes, i: nat): Out
    requires s.Live? && i <= |b|
  {
    var n := if i < |b| then i + 1 else |b|;
    var t := s.(raw := s.raw + b[..n], line := s.line + b[..i]);
    if !Fits(max, |s.raw| + n) then Out(Failed, [])
    else if i == |b| then Out(t, [])
    else if b[i] == '\r' then Out(t.(cr := true), [])
    else EndLine(t)
  }

  /** A segment, by where its bytes take the machine. */
  lemma SegmentIs(max: int, s: State, b: Bytes, i: nat, t: State)
    requires s.Live? && !s.cr && i <= |b|
    requires t == Live(s.raw + b[..if i < |b| then i + 1 else |b|], s.line + b[..i], false, s.started, s.cur)
    ensures Segment(max, s, b, i) ==
      if !Fits(max, |t.raw|) then Out(Failed, [])
      else if i == |b| then Out(t, [])
      else if t.raw[|t.raw| - 1] == '\r' then Out(t.(cr := true), [])
      else EndLine(t)
  {
    assert i < |b| ==> t.raw[|t.raw| - 1] == b[i];
  }

  lemma RunSegment(max: int, s: State, b: Bytes, i: nat)
    requires s.Live? && !s.cr && Fits(max, |s.raw|)
    requires i <= |b| && Plain(b[..i]) && (i < |b| ==> IsBreak(b[i]))
    ensures Run(max, s, if i < |b| then b[..i + 1] else b) == Segment(max, s, b, i)
  {
    RunPlain(max, s, b[..i]);
    if i == |b| {
      assert b[..i] == b;
    } else {
      assert b[..i + 1] == b[..i] + [b[i]];
      RunSplit(max, s, b[..i], [b[i]]);
      var t := Run(max, s, b[..i]).state;
      RunOne(max, t, b[i]);
      if t.Live? {
        assert s.raw + b[..i] + [b[i]] == s.raw + b[..i + 1];
      }
    }
  }

  lemma FeedSegment(max: int, s: State, b: Bytes, eof: bool, i: nat)
    requires s.Live? && !s.cr && Fits(max, |s.raw|)
    requires i <= |b| && Plain(b[..i]) && (i < |b| ==> IsBreak(b[i]))
    ensures var n := if i < |b| then i + 1 else |b|;
      Feed(max, s, b, eof) == After(Segment(max, s, b, i).events, Feed(max, Segment(max, s, b, i).state, b[n..], eof))
  {
    var n := if i < |b| then i + 1 else |b|;
    RunSegment(max, s, b, i);
    assert b == b[..n] + b[n..];
    FeedSplit(max, s, b[..n], b[n..], eof);
  }

  // -------------------------------------------------------------------- class ----

  /** The index of the first line break in b, or |b|. */
  method IndexBreak(b: Bytes) returns (i: nat)
    ensures i <= |b| && Plain(b[..i])
    ensures i < |b| ==> IsBreak(b[i])
  {
    i := 0;
    while i < |b| && b[i] != '\r' && b[i] != '\n'
      invariant i <= |b| && Plain(b[..i])
    {
      i := i + 1;
    }
  }

  lemma AppendedLine(raw: Bytes, at: nat, b: Bytes, i: nat, n: nat)
    requires at <= |raw| && i <= n <= |b| && i <= |b|
    ensures (raw + b[..n])[at..|raw| + i] == raw[at..|raw|] + b[..i]
    ensures n > 0 ==> (raw + b[..n])[|raw| + n - 1] == b[n - 1]
  {
  }

  /** The parser with the fields the program keeps. */
  class Parser {
    const maxEventBytes: int
    var failed: bool
    var curRaw: Bytes
    var lineStart: nat
    var cr: bool
    var started: bool
    var cur: Cur

    ghost predicate Valid()
      reads this
    {
      && lineStart <= |curRaw|
      && (!failed ==> Fits(maxEventBytes, |curRaw|))
      && (cr ==> lineStart < |curRaw|)
      && (!cur.has ==> cur == NO_RECORD)
    }

    /** The abstract machine state; a failed parser keeps no resumable state. */
    ghost function Abs(): State
      reads this
      requires Valid()
    {
      if failed then Failed
      else Live(curRaw, curRaw[lineStart..if cr then |curRaw| - 1 else |curRaw|], cr, started, cur)
    }

    constructor (maxEventBytes: int)
      ensures Valid() && this.maxEventBytes == maxEventBytes && Abs() == Fresh(false)
    {
      this.maxEventBytes := maxEventBytes;
      failed, curRaw, lineStart, cr, started, cur := false, "", 0, false, false, NO_RECORD;
    }

    /** Append to the frame, or fail without appending when the frame would pass the limit. */
    method AppendRaw(b: Bytes) returns (ok: bool)
      requires Valid() && !failed
      modifies this`failed, this`curRaw
      ensures Valid()
      ensures ok == Fits(maxEventBytes, |old(curRaw)| + |b|)
      ensures failed == !ok
      ensures curRaw == if ok then old(curRaw) + b else old(curRaw)
    {
      if maxEventBytes > 0 && |b| > maxEventBytes - |curRaw| {
        failed := true;
        return false;
      }
      curRaw := curRaw + b;
      return true;
    }

    /** Interpret the line that ends the frame so far; `ending` is the length of its terminator, and t
        is the machine with that line in full. */
    method FinishLine(ending: nat, ghost t: State) returns (out: seq<Event>)
      requires Valid() && !failed && !cr
      requires lineStart + ending <= |curRaw|
      requires t == Live(curRaw, curRaw[lineStart..|curRaw| - ending], false, started, cur)
      modifies this`curRaw, this`lineStart, this`started, this`cur
      ensures Valid()
      ensures Out(Abs(), out) == EndLine(t)
    {
      out := [];
      var line := curRaw[lineStart..|curRaw| - ending];
      lineStart := |curRaw|;
      if !started {
        line := StripBom(line);
        started := true;
      }
      if |line| == 0 {
        if cur.has {
          out := [Event(cur.name, cur.data, curRaw)];
          cur := NO_RECORD;
        }
        curRaw, lineStart := "", 0;
        return;
      }
      cur := Field(cur, line);
      assert curRaw[lineStart..|curRaw|] == "";
    }

    /** The pending CR is complete: take the LF that belongs to it, then end the line. */
    method FinishPending(b: Bytes) returns (rest: Bytes, out: seq<Event>)
      requires Valid() && !failed && cr
      modifies this
      ensures Valid() && (cr ==> failed)
      ensures rest == if b != "" && b[0] == '\n' then b[1..] else b
      ensures Out(Abs(), out) == if b != "" && b[0] == '\n' then Step(maxEventBytes, old(Abs()), '\n') else EndLine(old(Abs()))
    {
      out := [];
      rest := b;
      ghost var s := Abs();
      var ending := 1;
      if |b| > 0 && b[0] == '\n' {
        assert b[..1] == "\n";
        var ok := AppendRaw(b[..1]);
        rest := b[1..];
        if !ok {
          return;
        }
        ending := 2;
      }
      cr := false;
      assert curRaw[lineStart..|curRaw| - ending] == s.line;
      out := FinishLine(ending, s.(raw := curRaw, cr := false));
    }

    /** The segment ended with a line break, which for a CR may not be the whole terminator yet. */
    method EndSegment(ghost t: State) returns (out: seq<Event>)
      requires Valid() && !failed && !cr && lineStart < |curRaw|
      requires t == Live(curRaw, curRaw[lineStart..|curRaw| - 1], false, started, cur)
      modifies this
      ensures Valid()
      ensures Out(Abs(), out) == if t.raw[|t.raw| - 1] == '\r' then Out(t.(cr := true), []) else EndLine(t)
    {
      out := [];
      if curRaw[|curRaw| - 1] == '\r' {
        cr := true;
      } else {
        out := FinishLine(1, t);
      }
    }

    /** Append up to and including the next line break, and end the line unless it may be CRLF. */
    method TakeSegment(b: Bytes) returns (rest: Bytes, out: seq<Event>, ghost i: nat)
      requires Valid() && !failed && !cr && b != ""
      modifies this
      ensures Valid()
      ensures i <= |b| && Plain(b[..i]) && (i < |b| ==> IsBreak(b[i]))
      ensures rest == b[if i < |b| then i + 1 else |b|..]
      ensures Out(Abs(), out) == Segment(maxEventBytes, old(Abs()), b, i)
    {
      out := [];
      var at := IndexBreak(b);
      i := at;
      var n := if at < |b| then at + 1 else |b|;
      rest := b[n..];
      ghost var t := Live(curRaw + b[..n], curRaw[lineStart..] + b[..at], false, started, cur);
      assert Abs() == Live(curRaw, curRaw[lineStart..], false, started, cur);
      SegmentIs(maxEventBytes, Abs(), b, at, t);
      var ok := AppendSegment(b, at, n, t);
      if ok && at < |b| {
        out := EndSegment(t);
      }
    }

    /** The bytes of one segment, as t has them: the line up to `at`, and its terminator if n is past it. */
    method AppendSegment(b: Bytes, at: nat, n: nat, ghost t: State) returns (ok: bool)
      requires Valid() && !failed && !cr && at <= n <= |b| && n <= at + 1
      requires t == Live(curRaw + b[..n], curRaw[lineStart..] + b[..at], false, started, cur)
      modifies this`failed, this`curRaw
      ensures Valid() && ok == Fits(maxEventBytes, |old(curRaw)| + n) && failed == !ok
      ensures ok ==> curRaw == t.raw
      ensures ok && n == at ==> Abs() == t
      ensures ok && n == at + 1 ==> t == Live(curRaw, curRaw[lineStart..|curRaw| - 1], false, started, cur) && curRaw[|curRaw| - 1] == b[at]
    {
      AppendedLine(curRaw, lineStart, b, at, n);
      ok := AppendRaw(b[..n]);
    }

    method TakePending(b: Bytes, ghost eof: bool) returns (rest: Bytes, out: seq<Event>)
      requires Valid() && !failed && cr && (b == "" ==> eof)
      modifies this
      ensures Valid() && (cr ==> failed) && |rest| <= |b|
      ensures Feed(maxEventBytes, old(Abs()), b, eof) == After(out, Feed(maxEventBytes, Abs(), rest, eof))
    {
      if b != "" && b[0] == '\n' {
        FeedStep(maxEventBytes, Abs(), b, eof);
      } else {
        FeedClosed(maxEventBytes, Abs(), b, eof);
      }
      rest, out := FinishPending(b);
    }

    method TakeLine(b: Bytes, ghost eof: bool) returns (rest: Bytes, out: seq<Event>)
      requires Valid() && !failed && !cr && b != ""
      modifies this
      ensures Valid() && |rest| < |b|
      ensures Feed(maxEventBytes, old(Abs()), b, eof) == After(out, Feed(maxEventBytes, Abs(), rest, eof))
    {
      ghost var s, i := Abs(), 0;
      rest, out, i := TakeSegment(b);
      FeedSegment(maxEventBytes, s, b, eof, i);
    }

    /** Recognize CR, LF and CRLF in one read chunk. Only a final CR needs lookahead. */
    method FeedChunk(chunk: Bytes, eof: bool) returns (out: seq<Event>)
      requires Valid()
      modifies this
      ensures Valid() && (eof ==> failed || !cr)
      ensures Out(Abs(), out) == Feed(maxEventBytes, old(Abs()), chunk, eof)
    {
      out := [];
      var b := chunk;
      ghost var start := Feed(maxEventBytes, Abs(), chunk, eof);
      AfterAfter([], [], start);
      while !failed
        invariant Valid()
        invariant start == After(out, Feed(maxEventBytes, Abs(), b, eof))
        decreases |b|, cr, !failed
      {
        if cr {
          if |b| == 0 && !eof {
            break;
          }
          var rest, ended := TakePending(b, eof);
          AfterAfter(out, ended, Feed(maxEventBytes, Abs(), rest, eof));
          b, out := rest, out + ended;
          if failed {
            break;
          }
        }
        if |b| == 0 {
          break;
        }
        var rest, ended := TakeLine(b, eof);
        AfterAfter(out, ended, Feed(maxEventBytes, Abs(), rest, eof));
        b, out := rest, out + ended;
      }
      if failed {
        FeedFailed(maxEventBytes, b, eof);
      }
    }
  }
}
