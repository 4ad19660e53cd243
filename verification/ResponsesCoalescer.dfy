/**
 Replaying a buffered Responses stream (responses.go, replayResponsesReader and
 responsesReplayCoalescer): adjacent text deltas of one route are joined within a byte limit, and
 everything else passes through as an ordering barrier. Decoding one event's JSON is given.
 */
module ResponsesCoalescer {
  import opened Common
  import opened SseParser
  import opened SseDocument
  import SseRoundTrip
  import SseFrame
  import opened ResponsesFrames

  /** The decoded fields of a text delta; of sequence number and padding, the value as text. */
  datatype Fields = Fields(
    itemId: Bytes, outputIndex: int, contentIndex: int, hasLogprobs: bool,
    sequence: Option<Bytes>, obfuscation: Option<Bytes>, delta: Bytes)

  /** `decode` answers for text deltas only; `encode` is the JSON of a joined delta. */
  datatype Env = Env(decode: Bytes -> Option<Fields>, encode: Fields -> Bytes)

  /** One delta, or several adjacent ones joined. */
  datatype Group = Group(eventName: Bytes, fields: Fields, raw: Bytes, payloadBytes: nat, count: nat)

  // ------------------------------------------------------------- simple frames ----

  /** How many event and data lines, or None when some line rules joining out. */
  datatype LineCount = LineCount(events: nat, datas: nat)

  function CountLine(ev: Event, line: Bytes, n: LineCount): Option<LineCount> {
    if line == "" then Some(n) else
    var j := IndexOf(line, ':');
    if j == |line| then None else
    var after := line[j + 1..];
    var value := if after != "" && after[0] == ' ' then after[1..] else after;
    match line[..j]
    case "event" => if value == ev.name then Some(n.(events := n.events + 1)) else None
    case "data" => if value == ev.data then Some(n.(datas := n.datas + 1)) else None
    case _ => None
  }

  function CountLines(ev: Event, b: Bytes, n: LineCount): Option<LineCount>
    decreases |b|
  {
    var i := FirstBreak(b);
    var c := CountLine(ev, b[..i], n);
    if c.None? || i == |b| then c else CountLines(ev, b[i + BreakLength(b, i)..], c.value)
  }

  /** Exactly one data line and, unless the event is unnamed, one event line, and nothing else. */
  function Simple(ev: Event): bool {
    CountLines(ev, ev.raw, LineCount(0, 0)) == Some(LineCount(if ev.name == "" then 0 else 1, 1))
  }

  /** simpleResponsesSSEFrame as a loop over the lines. */
  method SimpleFrame(ev: Event) returns (simple: bool)
    ensures simple == Simple(ev)
  {
    var b := ev.raw;
    var n := LineCount(0, 0);
    while true
      invariant CountLines(ev, ev.raw, LineCount(0, 0)) == CountLines(ev, b, n)
      decreases |b|
    {
      var i := IndexBreak(b);
      FirstBreakAt(b, i);
      var c := CountLine(ev, b[..i], n);
      if c.None? {
        return false;
      }
      n := c.value;
      if i == |b| {
        return n.datas == 1 && n.events == if ev.name == "" then 0 else 1;
      }
      b := b[i + BreakLength(b, i)..];
    }
  }

  lemma FirstBreakAt(b: Bytes, i: nat)
    requires i <= |b| && Plain(b[..i]) && (i < |b| ==> IsBreak(b[i]))
    ensures FirstBreak(b) == i
  {
    if i < |b| {
      FirstBreakIs(b, i);
    } else {
      assert b[..i] == b;
    }
  }

  // ------------------------------------------------------------ the specification ----

  /** The group of one event, when it may be joined at all. */
  function TextDelta(env: Env, max: int, ev: Event): Option<Group> {
    if |ev.data| > max || !Simple(ev) || env.decode(ev.data).None? then None
    else Some(Group(ev.name, env.decode(ev.data).value, ev.raw, |ev.data|, 1))
  }

  /** The same item, the same place in it, and the same optional fields. */
  predicate Alike(f: Fields, d: Fields) {
    && f.itemId == d.itemId && f.outputIndex == d.outputIndex && f.contentIndex == d.contentIndex
    && f.hasLogprobs == d.hasLogprobs && f.sequence.Some? == d.sequence.Some? && f.obfuscation.Some? == d.obfuscation.Some?
  }

  predicate Compatible(g: Group, d: Group) {
    g.eventName == d.eventName && Alike(g.fields, d.fields)
  }

  function JoinFields(f: Fields, d: Fields): Fields {
    f.(delta := f.delta + d.delta,
       sequence := if f.sequence.Some? then d.sequence else f.sequence,
       obfuscation := if f.obfuscation.Some? then d.obfuscation else f.obfuscation)
  }

  function Merge(g: Group, d: Group): Group {
    g.(fields := JoinFields(g.fields, d.fields),
       payloadBytes := g.payloadBytes + d.payloadBytes, count := g.count + d.count)
  }

  /** A single delta keeps its own bytes; a joined one is written anew. */
  function GroupFrame(env: Env, g: Group): Bytes {
    if g.count == 1 then g.raw else SseFrame.Frame(g.eventName, env.encode(g.fields))
  }

  datatype Coalescer = Coalescer(out: seq<Bytes>, pending: Option<Group>)

  function Flushed(env: Env, c: Coalescer): seq<Bytes> {
    c.out + if c.pending.Some? then [GroupFrame(env, c.pending.value)] else []
  }

  function PassFrame(env: Env, c: Coalescer, raw: Bytes): Coalescer {
    Coalescer(Flushed(env, c) + [raw], None)
  }

  function AcceptDelta(env: Env, max: int, c: Coalescer, d: Group): Coalescer {
    if c.pending.None? then c.(pending := Some(d))
    else if !Compatible(c.pending.value, d) || c.pending.value.payloadBytes + d.payloadBytes > max then
      Coalescer(Flushed(env, c), Some(d))
    else c.(pending := Some(Merge(c.pending.value, d)))
  }

  /** The one event that a frame holds, if the frame is exactly that event. */
  function OnlyEvent(raw: Bytes): Option<Event> {
    var evs := SseRoundTrip.Parse(raw);
    if |evs| == 1 && |evs[0].raw| == |raw| then Some(evs[0]) else None
  }

  /** One complete frame; an oversized one is passed through without being read. */
  function AcceptFrame(env: Env, max: int, c: Coalescer, raw: Bytes): Coalescer {
    if |raw| > max || OnlyEvent(raw).None? then PassFrame(env, c, raw) else
    var ev := OnlyEvent(raw).value;
    match TextDelta(env, max, ev)
    case None => PassFrame(env, c, ev.raw)
    case Some(d) => AcceptDelta(env, max, c, d)
  }

  const START := Coalescer([], None)

  function Fold(step: (Coalescer, Bytes) -> Coalescer, c: Coalescer, frames: seq<Bytes>): Coalescer {
    if frames == [] then c else step(Fold(step, c, frames[..|frames| - 1]), frames[|frames| - 1])
  }

  function Stepper(env: Env, max: int): (Coalescer, Bytes) -> Coalescer {
    (c: Coalescer, f: Bytes) => AcceptFrame(env, max, c, f)
  }

  function AcceptFrames(env: Env, max: int, frames: seq<Bytes>): Coalescer {
    Fold(Stepper(env, max), START, frames)
  }

  /** Everything a replay writes; a limit that is not positive copies the stream. */
  function Replay(env: Env, max: int, b: Bytes): Bytes {
    if max <= 0 then b else
    var c := Cut(b);
    Concat(Flushed(env, AcceptFrames(env, max, c.frames))) + c.tail
  }

  // ------------------------------------------------------------- small facts ----

  lemma FlushedConcat(env: Env, c: Coalescer)
    ensures Concat(Flushed(env, c)) == Concat(c.out) + if c.pending.Some? then GroupFrame(env, c.pending.value) else ""
  {
    if c.pending.Some? {
      ConcatSplit(c.out, [GroupFrame(env, c.pending.value)]);
      ConcatOne(GroupFrame(env, c.pending.value));
    } else {
      assert c.out + [] == c.out;
    }
  }

  lemma PassConcat(env: Env, c: Coalescer, raw: Bytes)
    ensures Concat(PassFrame(env, c, raw).out) == Concat(Flushed(env, c)) + raw
  {
    ConcatSplit(Flushed(env, c), [raw]);
    ConcatOne(raw);
  }

  lemma FramesPush(env: Env, max: int, frames: seq<Bytes>, f: Bytes)
    ensures AcceptFrames(env, max, frames + [f]) == AcceptFrame(env, max, AcceptFrames(env, max, frames), f)
  {
    assert (frames + [f])[..|frames|] == frames;
  }

  lemma Pieces(before: Bytes, a: Bytes, value: Bytes, b: Bytes)
    ensures before + a + value + b == before + (a + value + b)
  {
    Assoc(before, a, value);
    Assoc(before, a + value, b);
  }

  lemma DataInPieces(data: Bytes)
    ensures "data: " + data + "\n\n" == SseFrame.FieldLine("data", data) + "\n"
  {
    assert "data" + ": " == "data: " && "\n" + "\n" == "\n\n";
    Assoc("data: " + data, "\n", "\n");
  }

  lemma FrameInPieces(before: Bytes, name: Bytes, data: Bytes)
    ensures (if name != "" then before + "event: " + name + "\n" else before) + "data: " + data + "\n\n" == before + SseFrame.Frame(name, data)
  {
    var head := if name != "" then before + "event: " + name + "\n" else before;
    var line := if name == "" then "" else SseFrame.FieldLine("event", name);
    assert "event" + ": " == "event: ";
    Pieces(before, "event: ", name, "\n");
    EmptyPlus(before);
    assert head == before + line;
    Pieces(head, "data: ", data, "\n\n");
    DataInPieces(data);
    Assoc(before, line, SseFrame.FieldLine("data", data) + "\n");
    Assoc(line, SseFrame.FieldLine("data", data), "\n");
  }

  lemma SliceGrows(before: Bytes, buf: Bytes, start: nat, i: nat)
    requires start <= i < |buf|
    ensures before + buf[start..i + 1] == (before + buf[start..i]) + [buf[i]]
  {
  }

  /** The machine once a pending CR has turned out to stand alone. */
  function AfterCr(s: CutState): CutState {
    var t := s.(pendingCr := false);
    if s.frameDone then Finish(t) else t
  }

  lemma CutRunUpTo(s: CutState, buf: Bytes, i: nat)
    requires i < |buf|
    ensures CutRun(s, buf[..i + 1]) == CutStep(CutRun(s, buf[..i]), buf[i])
  {
    assert buf[..i + 1] == buf[..i] + [buf[i]];
    CutRunPush(s, buf[..i], buf[i]);
  }

  function Max(a: nat, b: nat): nat {
    if a < b then b else a
  }

  // -------------------------------------------------------------------- the class ----

  /** The streaming replayer. Only what it keeps between two bytes is a field; `frames` and `partial`
      record what has been read, in whole frames and in the frame in progress. */
  class Replayer {
    const env: Env
    const maxGroupBytes: int
    var written: Bytes
    var pending: Option<Group>
    var frame: Bytes
    var passthrough: bool
    var lineHasData: bool
    var pendingCr: bool
    var frameDone: bool
    ghost var frames: seq<Bytes>
    ghost var partial: Bytes

    /** The most that has been kept at any time, as a frame in progress or as joined payload. */
    ghost var peak: nat

    /** What has been written and what waits is what the specification says, and nothing kept in
        memory exceeds the limit. */
    ghost predicate Valid()
      reads this
    {
      var c := AcceptFrames(env, maxGroupBytes, frames);
      && maxGroupBytes > 0
      && |frame| <= peak <= maxGroupBytes
      && (pending.Some? ==> pending.value.payloadBytes <= peak)
      && (passthrough <==> |partial| > maxGroupBytes)
      && (if passthrough then frame == "" && pending == None && written == Concat(Flushed(env, c)) + partial
          else frame == partial && pending == c.pending && written == Concat(c.out))
    }

    constructor (env: Env, maxGroupBytes: int)
      requires maxGroupBytes > 0
      ensures Valid() && this.env == env && this.maxGroupBytes == maxGroupBytes
      ensures frames == [] && partial == "" && !lineHasData && !pendingCr && !frameDone
    {
      this.env, this.maxGroupBytes := env, maxGroupBytes;
      written, pending, frame, passthrough := "", None, "", false;
      lineHasData, pendingCr, frameDone := false, false, false;
      frames, partial, peak := [], "", 0;
    }

    method Flush()
      modifies this`written, this`pending
      ensures pending == None
      ensures written == old(written) + if old(pending).Some? then GroupFrame(env, old(pending).value) else ""
    {
      if pending.Some? {
        var g := pending.value;
        pending := None;
        if g.count == 1 {
          written := written + g.raw;
        } else {
          var data := env.encode(g.fields);
          if g.eventName != "" {
            written := written + "event: " + g.eventName + "\n";
          }
          written := written + "data: " + data + "\n\n";
          FrameInPieces(old(written), g.eventName, data);
        }
      }
    }

    /** The coalescer's part of the state is c. */
    ghost predicate Holds(c: Coalescer)
      reads this
    {
      && pending == c.pending && written == Concat(c.out)
      && (pending.Some? ==> pending.value.payloadBytes <= peak) && peak <= maxGroupBytes
    }

    /** A barrier: release what is joined so far, then the frame itself. */
    method Pass(raw: Bytes, ghost c: Coalescer)
      requires Holds(c)
      modifies this`written, this`pending
      ensures Holds(PassFrame(env, c, raw))
    {
      FlushedConcat(env, c);
      PassConcat(env, c, raw);
      Flush();
      written := written + raw;
    }

    method AcceptGroup(d: Group, ghost c: Coalescer)
      requires Holds(c) && d.payloadBytes <= maxGroupBytes
      modifies this`written, this`pending, this`peak
      ensures old(peak) <= peak
      ensures Holds(AcceptDelta(env, maxGroupBytes, c, d))
    {
      if pending.Some? && Compatible(pending.value, d) && pending.value.payloadBytes + d.payloadBytes <= maxGroupBytes {
        pending := Some(Merge(pending.value, d));
        peak := Max(peak, pending.value.payloadBytes);
        return;
      }
      FlushedConcat(env, c);
      Flush();
      pending := Some(d);
      peak := Max(peak, d.payloadBytes);
    }

    method AcceptEvent(ev: Event, ghost c: Coalescer)
      requires Holds(c)
      modifies this`written, this`pending, this`peak
      ensures old(peak) <= peak
      ensures Holds(
        match TextDelta(env, maxGroupBytes, ev)
        case None => PassFrame(env, c, ev.raw)
        case Some(d) => AcceptDelta(env, maxGroupBytes, c, d))
    {
      var joinable := |ev.data| <= maxGroupBytes;
      if joinable {
        joinable := SimpleFrame(ev);
      }
      if !joinable || env.decode(ev.data).None? {
        Pass(ev.raw, c);
        return;
      }
      AcceptGroup(Group(ev.name, env.decode(ev.data).value, ev.raw, |ev.data|, 1), c);
    }

    /** A complete frame within the limit. */
    method Accept(raw: Bytes, ghost c: Coalescer)
      requires |raw| <= maxGroupBytes && Holds(c)
      modifies this`written, this`pending, this`peak
      ensures old(peak) <= peak
      ensures Holds(AcceptFrame(env, maxGroupBytes, c, raw))
    {
      var parser := new Parser(0);
      var evs := parser.FeedChunk(raw, true);
      assert evs == SseRoundTrip.Parse(raw);
      if |evs| != 1 || |evs[0].raw| != |raw| {
        Pass(raw, c);
        return;
      }
      AcceptEvent(evs[0], c);
    }

    /** The frame in progress is being copied, not kept. */
    ghost predicate Copying()
      reads this
    {
      && peak <= maxGroupBytes && passthrough && frame == "" && pending == None
      && written == Concat(Flushed(env, AcceptFrames(env, maxGroupBytes, frames))) + partial
    }

    /** The frame in progress passes the limit: release what waits, and stop keeping the frame. */
    method Spill()
      requires Valid() && !passthrough
      modifies this`written, this`pending, this`frame, this`passthrough
      ensures Copying()
    {
      FlushedConcat(env, AcceptFrames(env, maxGroupBytes, frames));
      Flush();
      written := written + frame;
      frame := "";
      passthrough := true;
    }

    method CopyBytes(chunk: Bytes)
      requires Copying() && 0 < maxGroupBytes < |partial| + |chunk|
      modifies this`written, this`partial
      ensures Valid() && partial == old(partial) + chunk
    {
      Assoc(Concat(Flushed(env, AcceptFrames(env, maxGroupBytes, frames))), partial, chunk);
      partial := partial + chunk;
      written := written + chunk;
    }

    method KeepBytes(chunk: Bytes)
      requires Valid() && !passthrough && |frame| + |chunk| <= maxGroupBytes
      modifies this`frame, this`partial, this`peak
      ensures Valid() && old(peak) <= peak && partial == old(partial) + chunk
    {
      partial := partial + chunk;
      frame := frame + chunk;
      peak := Max(peak, |frame|);
    }

    /** More bytes of the frame in progress. */
    method AppendBytes(chunk: Bytes)
      requires Valid()
      modifies this`written, this`pending, this`frame, this`passthrough, this`partial, this`peak
      ensures Valid() && old(peak) <= peak && partial == old(partial) + chunk
    {
      if |chunk| == 0 {
        EmptyPlus(partial);
      } else if !passthrough && |frame| + |chunk| <= maxGroupBytes {
        KeepBytes(chunk);
      } else {
        if !passthrough {
          Spill();
        }
        CopyBytes(chunk);
      }
    }

    /** The frame in progress is complete. */
    method FinishFrame()
      requires Valid()
      modifies this`written, this`pending, this`frame, this`passthrough, this`partial, this`frames, this`peak
      ensures Valid() && old(peak) <= peak && partial == "" && frames == old(frames) + [old(partial)]
    {
      ghost var c := AcceptFrames(env, maxGroupBytes, frames);
      FramesPush(env, maxGroupBytes, frames, partial);
      if !passthrough {
        Accept(frame, c);
      } else {
        PassConcat(env, c, partial);
      }
      frames := frames + [partial];
      frame, passthrough, partial := "", false, "";
    }

    /** The fields agree with the byte-step machine after it has read all but the last `ahead`. */
    ghost predicate Tracks(s: CutState, ahead: Bytes)
      reads this
    {
      && Valid() && s.frames == frames && s.cur == partial + ahead
      && s.lineHasData == lineHasData && s.pendingCr == pendingCr && s.frameDone == frameDone
    }

    /** The frame in progress ends with these bytes. */
    method CloseFrame(last: Bytes)
      requires Valid()
      modifies this`written, this`pending, this`frame, this`passthrough, this`partial, this`frames, this`peak
      ensures Valid() && old(peak) <= peak && partial == "" && frames == old(frames) + [old(partial) + last]
    {
      AppendBytes(last);
      FinishFrame();
    }

    /** The CR at the end of the last line is complete, with the LF at i if there is one. */
    method ClosePending(buf: Bytes, start: nat, i: nat, ghost s: CutState) returns (next: nat)
      requires start <= i < |buf| && pendingCr && Tracks(s, buf[start..i])
      modifies this
      ensures old(peak) <= peak
      ensures start <= next <= i + 1
      ensures if buf[i] == '\n' then Tracks(CutStep(s, '\n'), buf[next..i + 1])
              else next <= i && Tracks(AfterCr(s), buf[next..i])
    {
      pendingCr := false;
      next := start;
      var end := if buf[i] == '\n' then i + 1 else i;
      SliceGrows(partial, buf, start, i);
      if frameDone {
        CloseFrame(buf[start..end]);
        next, frameDone := end, false;
        assert partial + buf[end..end] == "";
      }
    }

    /** One byte when no CR is pending. */
    method ReadByte(buf: Bytes, start: nat, i: nat, ghost s: CutState) returns (next: nat)
      requires start <= i < |buf| && !pendingCr && Tracks(s, buf[start..i])
      modifies this
      ensures old(peak) <= peak
      ensures start <= next <= i + 1 && Tracks(CutByte(s, buf[i]), buf[next..i + 1])
    {
      next := start;
      SliceGrows(partial, buf, start, i);
      match buf[i] {
        case '\r' =>
          pendingCr, frameDone, lineHasData := true, !lineHasData, false;
        case '\n' =>
          if !lineHasData {
            CloseFrame(buf[start..i + 1]);
            next := i + 1;
            frameDone := false;
            assert partial + buf[i + 1..i + 1] == "";
          }
          lineHasData := false;
        case _ =>
          lineHasData := true;
      }
    }

    /** One byte, whatever is pending. */
    method ReadNext(buf: Bytes, start: nat, i: nat, ghost s: CutState) returns (next: nat)
      requires start <= i < |buf| && Tracks(s, buf[start..i])
      modifies this
      ensures old(peak) <= peak
      ensures start <= next <= i + 1 && Tracks(CutStep(s, buf[i]), buf[next..i + 1])
    {
      next := start;
      if !pendingCr {
        next := ReadByte(buf, start, i, s);
      } else {
        next := ClosePending(buf, start, i, s);
        if buf[i] != '\n' {
          next := ReadByte(buf, next, i, AfterCr(s));
        }
      }
    }

    /** One read of the source. */
    method ReadChunk(buf: Bytes, ghost s0: CutState)
      requires Tracks(s0, "")
      modifies this
      ensures old(peak) <= peak
      ensures Tracks(CutRun(s0, buf), "")
    {
      var start := 0;
      assert buf[..0] == "" && buf[0..0] == "";
      for i := 0 to |buf|
        invariant 0 <= start <= i
        invariant old(peak) <= peak && Tracks(CutRun(s0, buf[..i]), buf[start..i])
      {
        start := ReadNext(buf, start, i, CutRun(s0, buf[..i]));
        CutRunUpTo(s0, buf, i);
      }
      assert buf[..|buf|] == buf;
      AppendBytes(buf[start..]);
      assert buf[start..] == buf[start..|buf|];
      assert partial + "" == partial;
    }

    /** The whole replay: every read, and at the end of input the last frame and the tail. However long
        the input, what is kept at any time is within the limit. */
    method ReplayReader(chunks: seq<Bytes>)
      requires Tracks(CUT_START, "") && written == "" && pending == None
      modifies this
      ensures written == Replay(env, maxGroupBytes, Concat(chunks)) && old(peak) <= peak <= maxGroupBytes
    {
      ghost var s := CUT_START;
      for k := 0 to |chunks|
        invariant s == CutRun(CUT_START, Concat(chunks[..k])) && Tracks(s, "") && old(peak) <= peak
      {
        ReadChunk(chunks[k], s);
        CutRunSplit(CUT_START, Concat(chunks[..k]), chunks[k]);
        ConcatSplit(chunks[..k], [chunks[k]]);
        ConcatOne(chunks[k]);
        assert chunks[..k + 1] == chunks[..k] + [chunks[k]];
        s := CutRun(s, chunks[k]);
      }
      assert chunks[..|chunks|] == chunks;
      CutMachine(Concat(chunks));
      assert partial + "" == partial;
      if pendingCr && frameDone {
        FinishFrame();
      }
      ghost var c := AcceptFrames(env, maxGroupBytes, frames);
      FlushedConcat(env, c);
      assert frames == Cut(Concat(chunks)).frames && partial == Cut(Concat(chunks)).tail;
      Flush();
      written := written + frame;
    }
  }
}
