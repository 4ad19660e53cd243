/**
 A replay keeps the meaning of a Responses stream: cutting and reading its output gives the same
 text, route by route, the same barriers verbatim and in order, and the last sequence numbers.
 */
module ResponsesMeaning {
  import opened Common
  import opened SseParser
  import SseRoundTrip
  import SseFrame
  import opened ResponsesFrames
  import opened ResponsesCoalescer

  /** Where a text delta goes. */
  datatype Route = Route(
    eventName: Bytes, itemId: Bytes, outputIndex: int, contentIndex: int,
    hasLogprobs: bool, hasSequence: bool, hasObfuscation: bool)

  datatype Token =
    | Text(route: Route, text: Bytes, sequence: Option<Bytes>, obfuscation: Option<Bytes>)
    | Opaque(raw: Bytes)

  function RouteOf(name: Bytes, f: Fields): Route {
    Route(name, f.itemId, f.outputIndex, f.contentIndex, f.hasLogprobs, f.sequence.Some?, f.obfuscation.Some?)
  }

  function TextToken(name: Bytes, f: Fields): Token {
    Text(RouteOf(name, f), f.delta, f.sequence, f.obfuscation)
  }

  function EventToken(env: Env, ev: Event): Token {
    if Simple(ev) && env.decode(ev.data).Some? then TextToken(ev.name, env.decode(ev.data).value) else Opaque(ev.raw)
  }

  /** What a client that reads the frame on its own gets. */
  function FrameToken(env: Env, frame: Bytes): Token {
    match OnlyEvent(frame)
    case None => Opaque(frame)
    case Some(ev) => EventToken(env, ev)
  }

  function Reader(env: Env): Bytes -> Token {
    (frame: Bytes) => FrameToken(env, frame)
  }

  /** Join t to the last token when both are text of one route. */
  function Push(acc: seq<Token>, t: Token): seq<Token> {
    if acc != [] && acc[|acc| - 1].Text? && t.Text? && acc[|acc| - 1].route == t.route then
      acc[..|acc| - 1] + [t.(text := acc[|acc| - 1].text + t.text)]
    else acc + [t]
  }

  /** The meaning of a frame sequence: maximal runs of adjacent text of one route, joined; each run
      carries the sequence number and padding of its last delta. */
  function Meaning(read: Bytes -> Token, frames: seq<Bytes>): seq<Token> {
    if frames == [] then [] else Push(Meaning(read, frames[..|frames| - 1]), read(frames[|frames| - 1]))
  }

  // -------------------------------------------------------------- what is assumed ----

  ghost predicate Decodes(env: Env, f: Fields) {
    exists data :: DecodesTo(env, data, f)
  }

  predicate DecodesTo(env: Env, data: Bytes, f: Fields) {
    env.decode(data) == Some(f)
  }

  function JoinAll(parts: seq<Fields>): Fields
    requires parts != []
  {
    if |parts| == 1 then parts[0] else JoinFields(JoinAll(parts[..|parts| - 1]), parts[|parts| - 1])
  }

  /** Decoded deltas that may be joined with each other. */
  ghost predicate Joinables(env: Env, parts: seq<Fields>) {
    && parts != []
    && forall k | 0 <= k < |parts| :: Decodes(env, parts[k]) && Alike(parts[0], parts[k])
  }

  /** The decoder gave these fields, or they join what it gave. */
  ghost predicate Built(env: Env, f: Fields) {
    exists parts :: Joinables(env, parts) && f == JoinAll(parts)
  }

  /** For fields that came out of the decoder, the encoder's JSON is one line that decodes to the fields
      it was given. */
  ghost predicate EncoderFaithful(env: Env) {
    forall f | Built(env, f) :: EncodedFaithfully(env, f)
  }

  predicate EncodedFaithfully(env: Env, f: Fields) {
    Plain(env.encode(f)) && env.decode(env.encode(f)) == Some(f)
  }

  /** Joining keeps the route, and the text is the concatenation. */
  lemma {:induction false} JoinAllIs(parts: seq<Fields>)
    requires parts != [] && forall k | 0 <= k < |parts| :: Alike(parts[0], parts[k])
    ensures var f, last := JoinAll(parts), parts[|parts| - 1];
      && Alike(f, parts[0]) && f.sequence == last.sequence && f.obfuscation == last.obfuscation
      && f.delta == Concat(Deltas(parts))
  {
    var last := |parts| - 1;
    if last == 0 {
      ConcatOne(parts[0].delta);
      assert Deltas(parts) == [parts[0].delta];
    } else {
      JoinAllIs(parts[..last]);
      assert Deltas(parts) == Deltas(parts[..last]) + [parts[last].delta];
      ConcatSplit(Deltas(parts[..last]), [parts[last].delta]);
      ConcatOne(parts[last].delta);
      assert Alike(parts[0], parts[last]);
    }
  }

  function Deltas(parts: seq<Fields>): (ts: seq<Bytes>)
    ensures |ts| == |parts|
  {
    seq(|parts|, i requires 0 <= i < |parts| => parts[i].delta)
  }

  lemma BuiltOne(env: Env, d: Fields)
    requires Decodes(env, d)
    ensures Built(env, d)
  {
    assert Joinables(env, [d]) && JoinAll([d]) == d;
  }

  lemma BuiltMore(env: Env, f: Fields, d: Fields)
    requires Built(env, f) && Decodes(env, d) && Alike(f, d)
    ensures Built(env, JoinFields(f, d))
  {
    var parts :| Joinables(env, parts) && f == JoinAll(parts);
    JoinAllIs(parts);
    var all := parts + [d];
    assert all[..|parts|] == parts;
    forall k | 0 <= k < |all| ensures Decodes(env, all[k]) && Alike(all[0], all[k]) {
      if k < |parts| {
        assert all[k] == parts[k];
      }
    }
    assert Joinables(env, all) && JoinAll(all) == JoinFields(f, d);
  }

  // -------------------------------------------------------------------- token algebra ----

  lemma MeaningPush(read: Bytes -> Token, frames: seq<Bytes>, f: Bytes)
    ensures Meaning(read, frames + [f]) == Push(Meaning(read, frames), read(f))
  {
    assert (frames + [f])[..|frames|] == frames;
  }

  /** Joining two deltas of one route first, or one after the other, is the same. */
  lemma PushTwice(acc: seq<Token>, a: Token, b: Token)
    requires a.Text? && b.Text? && a.route == b.route
    ensures Push(Push(acc, a), b) == Push(acc, b.(text := a.text + b.text))
  {
    var x := Push(acc, a);
    var last := x[|x| - 1];
    assert last.Text? && last.route == b.route;
    if |x| == |acc| {
      assert x[..|x| - 1] == acc[..|acc| - 1];
      assert acc[|acc| - 1].text + a.text + b.text == acc[|acc| - 1].text + (a.text + b.text);
    } else {
      assert x[..|x| - 1] == acc;
    }
  }

  lemma MergeToken(g: Group, d: Group)
    requires Compatible(g, d)
    ensures RouteOf(g.eventName, g.fields) == RouteOf(d.eventName, d.fields)
    ensures var m := Merge(g, d);
      TextToken(m.eventName, m.fields)
      == TextToken(d.eventName, d.fields).(text := g.fields.delta + d.fields.delta)
  {
  }

  // --------------------------------------------------------------------- joined frames ----

  lemma CountFieldLine(ev: Event, field: Bytes, value: Bytes, n: LineCount)
    requires ':' !in field
    ensures var line := field + ": " + value;
      && line != "" && line[..IndexOf(line, ':')] == field && IndexOf(line, ':') < |line|
      && CountLine(ev, line, n) ==
        match field
        case "event" => if value == ev.name then Some(n.(events := n.events + 1)) else None
        case "data" => if value == ev.data then Some(n.(datas := n.datas + 1)) else None
        case _ => None
  {
    SseFrame.FieldLineIndex(field, value);
    assert (" " + value)[1..] == value;
  }

  /** One LF-terminated line in front. */
  lemma CountLinesLf(ev: Event, line: Bytes, rest: Bytes, n: LineCount)
    requires Plain(line)
    ensures CountLines(ev, line + "\n" + rest, n) ==
      var c := CountLine(ev, line, n); if c.None? then None else CountLines(ev, rest, c.value)
  {
    var b := line + "\n" + rest;
    assert b[..|line|] == line;
    FirstBreakIs(b, |line|);
    assert b[|line| + 1..] == rest;
  }

  lemma CountField(ev: Event, field: Bytes, value: Bytes, rest: Bytes, n: LineCount)
    requires ':' !in field && Plain(field) && Plain(value)
    ensures CountLines(ev, SseFrame.FieldLine(field, value) + rest, n) ==
      match field
      case "event" => if value == ev.name then CountLines(ev, rest, n.(events := n.events + 1)) else None
      case "data" => if value == ev.data then CountLines(ev, rest, n.(datas := n.datas + 1)) else None
      case _ => None
  {
    CountFieldLine(ev, field, value, n);
    CountLinesLf(ev, field + ": " + value, rest, n);
  }

  lemma CountBlank(ev: Event, n: LineCount)
    ensures CountLines(ev, "\n", n) == Some(n)
  {
    CountLinesLf(ev, "", "", n);
    assert "" + "\n" + "" == "\n";
    assert CountLines(ev, "", n) == Some(n);
  }

  lemma CountBody(ev: Event, events: nat)
    requires Plain(ev.data)
    ensures CountLines(ev, SseFrame.FieldLine("data", ev.data) + "\n", LineCount(events, 0)) == Some(LineCount(events, 1))
  {
    CountField(ev, "data", ev.data, "\n", LineCount(events, 0));
    CountBlank(ev, LineCount(events, 1));
  }

  /** A joined frame is simple. */
  lemma FrameSimple(ev: Event)
    requires Plain(ev.name) && Plain(ev.data) && ev.raw == SseFrame.Frame(ev.name, ev.data)
    ensures Simple(ev)
  {
    var body := SseFrame.FieldLine("data", ev.data) + "\n";
    if ev.name != "" {
      assert ev.raw == SseFrame.FieldLine("event", ev.name) + body;
      CountField(ev, "event", ev.name, body, LineCount(0, 0));
      CountBody(ev, 1);
    } else {
      assert ev.raw == body;
      CountBody(ev, 0);
    }
  }

  /** Reading a joined frame gives back exactly the joined fields. */
  lemma JoinedToken(env: Env, name: Bytes, f: Fields)
    requires EncodedFaithfully(env, f) && Plain(name)
    ensures FrameToken(env, SseFrame.Frame(name, env.encode(f))) == TextToken(name, f)
  {
    var data := env.encode(f);
    assert Plain(data);
    SseFrame.FrameReads(name, data);
    FrameSimple(Event(name, data, SseFrame.Frame(name, data)));
  }

  // ------------------------------------------------------- facts about parsed events ----

  /** Names never contain a line break. */
  predicate NamesPlain(s: ParserState) {
    s.Live? ==> Plain(s.line) && Plain(s.cur.name)
  }

  type ParserState = SseParser.State

  lemma FieldPlain(cur: Cur, line: Bytes)
    requires Plain(cur.name) && Plain(line) && line != ""
    ensures Plain(Field(cur, line).name)
  {
  }

  lemma EndLineNames(s: ParserState)
    requires s.Live? && NamesPlain(s)
    ensures NamesPlain(EndLine(s).state) && EndLine(s).state.Live?
    ensures forall ev | ev in EndLine(s).events :: Plain(ev.name)
  {
    var line := if s.started then s.line else StripBom(s.line);
    if line != "" {
      FieldPlain(s.cur, line);
    }
  }

  lemma StepNames(s: ParserState, c: char)
    requires NamesPlain(s)
    ensures NamesPlain(Step(0, s, c).state) && forall ev | ev in Step(0, s, c).events :: Plain(ev.name)
  {
    if s.Live? {
      if c == '\n' {
        EndLineNames(s.(raw := s.raw + [c]));
      } else if s.cr {
        EndLineNames(s);
      }
    }
  }

  lemma {:induction false} FeedNames(s: ParserState, b: Bytes)
    requires NamesPlain(s)
    ensures forall ev | ev in Feed(0, s, b, true).events :: Plain(ev.name)
    decreases |b|
  {
    if b != "" {
      StepNames(s, b[0]);
      FeedStep(0, s, b, true);
      FeedNames(Step(0, s, b[0]).state, b[1..]);
    }
  }

  /** These bytes were read, or fewer. */
  predicate Within(raw: Bytes, all: Bytes) {
    |raw| < |all| || raw == all
  }

  lemma StepRaw(s: ParserState, c: char)
    requires s.Live?
    ensures var o := Step(0, s, c);
      && o.state.Live? && Within(o.state.raw, s.raw + [c])
      && forall ev | ev in o.events :: Within(ev.raw, s.raw + [c])
  {
  }

  lemma WithinMore(raw: Bytes, all: Bytes, more: Bytes)
    requires Within(raw, all)
    ensures Within(raw + more, all + more)
    ensures more != "" ==> Within(raw, all + more)
  {
  }

  /** A record as long as everything read is everything read. */
  lemma {:induction false} FeedRaw(s: ParserState, b: Bytes)
    requires s.Live?
    ensures forall ev | ev in Feed(0, s, b, true).events :: Within(ev.raw, s.raw + b)
    decreases |b|
  {
    if b == "" {
      assert s.raw + b == s.raw;
    } else {
      var o := Step(0, s, b[0]);
      var rest := b[1..];
      FeedStep(0, s, b, true);
      StepRaw(s, b[0]);
      FeedRaw(o.state, rest);
      Shift(s.raw, b);
      WithinMore(o.state.raw, s.raw + [b[0]], rest);
      forall ev | ev in Feed(0, s, b, true).events ensures Within(ev.raw, s.raw + b) {
        if ev in o.events {
          assert Within(ev.raw, s.raw + [b[0]]);
          assert rest == "" ==> s.raw + [b[0]] == s.raw + b;
        }
      }
    }
  }

  lemma OnlyEventIs(raw: Bytes)
    requires OnlyEvent(raw).Some?
    ensures OnlyEvent(raw).value.raw == raw && Plain(OnlyEvent(raw).value.name)
  {
    var evs := SseRoundTrip.Parse(raw);
    FeedRaw(Fresh(false), raw);
    FeedNames(Fresh(false), raw);
    assert Fresh(false).raw + raw == raw;
    assert evs[0] in evs;
  }

  // ------------------------------------------------------------------ joined frames again ----

  lemma CutFieldLine(field: Bytes, value: Bytes, rest: Bytes, cur: Bytes)
    requires Plain(field) && Plain(value)
    ensures CutFrom(SseFrame.FieldLine(field, value) + rest, cur) == CutFrom(rest, cur + SseFrame.FieldLine(field, value))
  {
    var line := SseFrame.FieldLine(field, value);
    var i := |line| - 1;
    assert line[..i] == field + ": " + value;
    assert line[i] == '\n';
    FirstBreakIs(line, i);
    CutLineThen(line, rest, cur, i);
  }

  lemma CutBlank(cur: Bytes)
    ensures CutFrom("\n", cur) == Cuts([cur + "\n"], "")
  {
    assert "\n"[..1] == "\n" && "\n"[1..] == "";
    CutFromLine("\n", cur, 0, 1);
    assert CutFrom("", "") == Cuts([], "");
  }

  lemma CutData(data: Bytes, cur: Bytes)
    requires Plain(data)
    ensures CutFrom(SseFrame.FieldLine("data", data) + "\n", cur) == Cuts([cur + SseFrame.FieldLine("data", data) + "\n"], "")
  {
    CutFieldLine("data", data, "\n", cur);
    CutBlank(cur + SseFrame.FieldLine("data", data));
  }

  /** A joined frame is one whole frame that stands apart from any neighbour. */
  lemma JoinedWhole(name: Bytes, data: Bytes)
    requires Plain(name) && Plain(data)
    ensures Whole(SseFrame.Frame(name, data))
  {
    var body := SseFrame.FieldLine("data", data) + "\n";
    var head := SseFrame.FieldLine("event", name);
    if name == "" {
      assert SseFrame.Frame(name, data) == body;
      CutData(data, "");
      assert "" + SseFrame.FieldLine("data", data) + "\n" == body;
    } else {
      assert SseFrame.Frame(name, data) == head + body;
      CutFieldLine("event", name, body, "");
      assert "" + head == head;
      CutData(data, head);
      assert head + SseFrame.FieldLine("data", data) + "\n" == head + body;
    }
  }

  lemma JoinedApart(name: Bytes, data: Bytes)
    ensures forall x: Bytes :: Apart(SseFrame.Frame(name, data), x) && Apart(x, SseFrame.Frame(name, data))
  {
    var f := SseFrame.Frame(name, data);
    assert f[|f| - 1] == '\n';
    assert f[0] == if name == "" then 'd' else 'e';
  }

  // --------------------------------------------------------------------------- the fold ----

  /** One frame is a barrier, or a single delta that the reader understands. */
  lemma AcceptShape(env: Env, max: int, c: Coalescer, f: Bytes)
    ensures AcceptFrame(env, max, c, f) == PassFrame(env, c, f)
      || exists d :: Single(env, d, f) && AcceptFrame(env, max, c, f) == AcceptDelta(env, max, c, d)
  {
    if |f| <= max && OnlyEvent(f).Some? {
      OnlyEventIs(f);
      var ev := OnlyEvent(f).value;
      var d := TextDelta(env, max, ev);
      if d.Some? {
        assert DecodesTo(env, ev.data, d.value.fields);
        assert Single(env, d.value, f);
      }
    }
  }

  ghost predicate Single(env: Env, d: Group, f: Bytes) {
    && d.raw == f && d.count == 1 && Plain(d.eventName) && Decodes(env, d.fields)
    && Reader(env)(f) == TextToken(d.eventName, d.fields)
  }

  /** What a pending group will be written as reads as the group. */
  ghost predicate GroupOk(env: Env, read: Bytes -> Token, g: Group) {
    && g.count >= 1 && Plain(g.eventName) && Built(env, g.fields)
    && read(GroupFrame(env, g)) == TextToken(g.eventName, g.fields)
  }

  ghost predicate SameMeaning(env: Env, read: Bytes -> Token, c: Coalescer, frames: seq<Bytes>) {
    && (c.pending.Some? ==> GroupOk(env, read, c.pending.value))
    && Meaning(read, Flushed(env, c)) == Meaning(read, frames)
  }

  lemma MergedOk(env: Env, g: Group, d: Group)
    requires EncoderFaithful(env) && g.count >= 1 && d.count == 1 && Plain(g.eventName)
    requires Built(env, g.fields) && Decodes(env, d.fields) && Compatible(g, d)
    ensures GroupOk(env, Reader(env), Merge(g, d))
  {
    BuiltMore(env, g.fields, d.fields);
    JoinedToken(env, g.eventName, Merge(g, d).fields);
  }

  lemma DeltaMeaning(env: Env, max: int, read: Bytes -> Token, c: Coalescer, frames: seq<Bytes>, d: Group, f: Bytes)
    requires SameMeaning(env, read, c, frames)
    requires d.raw == f && d.count == 1 && Plain(d.eventName) && read(f) == TextToken(d.eventName, d.fields) && Built(env, d.fields)
    requires c.pending.Some? && Compatible(c.pending.value, d) ==> GroupOk(env, read, Merge(c.pending.value, d))
    ensures SameMeaning(env, read, AcceptDelta(env, max, c, d), frames + [f])
  {
    var t := AcceptDelta(env, max, c, d);
    MeaningPush(read, frames, f);
    MeaningPush(read, Flushed(env, c), f);
    if c.pending.Some? && t.out == c.out {
      var g := c.pending.value;
      MeaningPush(read, c.out, GroupFrame(env, g));
      MeaningPush(read, c.out, GroupFrame(env, Merge(g, d)));
      MergeToken(g, d);
      PushTwice(Meaning(read, c.out), TextToken(g.eventName, g.fields), read(f));
    } else {
      assert c.pending.None? ==> Flushed(env, c) == c.out;
      assert Flushed(env, t) == Flushed(env, c) + [f];
    }
  }

  lemma StepMeaning(env: Env, max: int, c: Coalescer, frames: seq<Bytes>, f: Bytes)
    requires EncoderFaithful(env) && SameMeaning(env, Reader(env), c, frames)
    ensures SameMeaning(env, Reader(env), AcceptFrame(env, max, c, f), frames + [f])
  {
    var read := Reader(env);
    AcceptShape(env, max, c, f);
    if AcceptFrame(env, max, c, f) == PassFrame(env, c, f) {
      MeaningPush(read, frames, f);
      MeaningPush(read, Flushed(env, c), f);
      assert Flushed(env, PassFrame(env, c, f)) == Flushed(env, c) + [f];
    } else {
      var d :| Single(env, d, f) && AcceptFrame(env, max, c, f) == AcceptDelta(env, max, c, d);
      if c.pending.Some? && Compatible(c.pending.value, d) {
        MergedOk(env, c.pending.value, d);
      }
      BuiltOne(env, d.fields);
      DeltaMeaning(env, max, read, c, frames, d, f);
    }
  }

  lemma {:induction false} FramesMeaning(env: Env, max: int, frames: seq<Bytes>)
    requires EncoderFaithful(env)
    ensures SameMeaning(env, Reader(env), AcceptFrames(env, max, frames), frames)
    decreases |frames|
  {
    if frames != [] {
      var init := frames[..|frames| - 1];
      FramesMeaning(env, max, init);
      StepMeaning(env, max, AcceptFrames(env, max, init), init, frames[|frames| - 1]);
      FramesPush(env, max, init, frames[|frames| - 1]);
      assert frames == init + [frames[|frames| - 1]];
    }
  }

  // ----------------------------------------------------------- the output can be cut again ----

  ghost predicate Chain(frames: seq<Bytes>) {
    && (forall f | f in frames :: Whole(f))
    && (forall k | 0 <= k < |frames| - 1 :: Apart(frames[k], frames[k + 1]))
  }

  /** Whatever may follow the last frame of `frames` may follow the last frame of `out`. */
  ghost predicate EndsLike(out: seq<Bytes>, frames: seq<Bytes>) {
    && (out == [] <==> frames == [])
    && (out != [] ==> AllowsMore(frames[|frames| - 1], out[|out| - 1]))
  }

  ghost predicate AllowsMore(f: Bytes, g: Bytes) {
    forall x: Bytes :: Apart(f, x) ==> Apart(g, x)
  }

  lemma ChainPush(frames: seq<Bytes>, f: Bytes)
    ensures Chain(frames + [f]) <==> Chain(frames) && Whole(f) && (frames != [] ==> Apart(frames[|frames| - 1], f))
  {
    var all := frames + [f];
    assert forall k | 0 <= k < |frames| :: all[k] == frames[k];
    assert all[|frames|] == f;
    if Chain(all) {
      forall k | 0 <= k < |frames| - 1 ensures Apart(frames[k], frames[k + 1]) {
        assert Apart(all[k], all[k + 1]);
      }
      forall g | g in frames ensures Whole(g) {
        assert g in all;
      }
    }
  }

  ghost predicate CanCut(env: Env, c: Coalescer, frames: seq<Bytes>) {
    && Chain(Flushed(env, c)) && EndsLike(Flushed(env, c), frames)
    && (c.pending.Some? ==> CanWrite(env, c.pending.value))
  }

  ghost predicate CanWrite(env: Env, g: Group) {
    g.count >= 1 && Plain(g.eventName) && Built(env, g.fields)
  }

  lemma AppendCanCut(env: Env, c: Coalescer, t: Coalescer, frames: seq<Bytes>, f: Bytes)
    requires CanCut(env, c, frames) && Chain(frames + [f])
    requires Flushed(env, t) == Flushed(env, c) + [f]
    requires t.pending.Some? ==> CanWrite(env, t.pending.value)
    ensures CanCut(env, t, frames + [f])
  {
    ChainPush(frames, f);
    ChainPush(Flushed(env, c), f);
  }

  lemma MergeCanCut(env: Env, c: Coalescer, d: Group, frames: seq<Bytes>, f: Bytes)
    requires EncoderFaithful(env) && CanCut(env, c, frames) && c.pending.Some? && d.count == 1
    requires Compatible(c.pending.value, d) && Decodes(env, d.fields)
    ensures CanCut(env, c.(pending := Some(Merge(c.pending.value, d))), frames + [f])
  {
    var m := Merge(c.pending.value, d);
    BuiltMore(env, c.pending.value.fields, d.fields);
    assert EncodedFaithfully(env, m.fields);
    ChainPush(c.out, GroupFrame(env, c.pending.value));
    ChainPush(c.out, GroupFrame(env, m));
    JoinedWhole(m.eventName, env.encode(m.fields));
    JoinedApart(m.eventName, env.encode(m.fields));
  }

  lemma StepCanCut(env: Env, max: int, c: Coalescer, frames: seq<Bytes>, f: Bytes)
    requires EncoderFaithful(env) && CanCut(env, c, frames) && Chain(frames + [f])
    ensures CanCut(env, AcceptFrame(env, max, c, f), frames + [f])
  {
    var t := AcceptFrame(env, max, c, f);
    AcceptShape(env, max, c, f);
    if t == PassFrame(env, c, f) {
      assert Flushed(env, t) == Flushed(env, c) + [f];
      AppendCanCut(env, c, t, frames, f);
    } else {
      var d :| Single(env, d, f) && t == AcceptDelta(env, max, c, d);
      if c.pending.Some? && t.out == c.out {
        MergeCanCut(env, c, d, frames, f);
      } else {
        assert c.pending.None? ==> Flushed(env, c) == c.out;
        assert Flushed(env, t) == Flushed(env, c) + [f];
        BuiltOne(env, d.fields);
        AppendCanCut(env, c, t, frames, f);
      }
    }
  }

  lemma {:induction false} FramesCanCut(env: Env, max: int, frames: seq<Bytes>)
    requires EncoderFaithful(env) && Chain(frames)
    ensures CanCut(env, AcceptFrames(env, max, frames), frames)
    decreases |frames|
  {
    if frames != [] {
      var init := frames[..|frames| - 1];
      var last := frames[|frames| - 1];
      assert frames == init + [last];
      ChainPush(init, last);
      FramesCanCut(env, max, init);
      StepCanCut(env, max, AcceptFrames(env, max, init), init, last);
      FramesPush(env, max, init, last);
    }
  }

  lemma SeparableIsChain(frames: seq<Bytes>, tail: Bytes)
    requires Separable(frames, tail)
    ensures Chain(frames) && (frames != [] ==> Apart(frames[|frames| - 1], tail)) && Cut(tail) == Cuts([], tail)
  {
    forall k | 0 <= k < |frames| ensures Apart(frames[k], Following(frames, tail, k)) {
    }
    if frames != [] {
      assert Apart(frames[|frames| - 1], Following(frames, tail, |frames| - 1));
    }
    forall k | 0 <= k < |frames| - 1 ensures Apart(frames[k], frames[k + 1]) {
      assert Apart(frames[k], Following(frames, tail, k));
    }
  }

  lemma ChainIsSeparable(frames: seq<Bytes>, tail: Bytes)
    requires Chain(frames) && (frames != [] ==> Apart(frames[|frames| - 1], tail)) && Cut(tail) == Cuts([], tail)
    ensures Separable(frames, tail)
  {
  }

  /** Reading the output of a replay, frame by frame, gives exactly the meaning of its input: the
      same text for every route between the same barriers, the barriers verbatim and in order, the
      sequence number and padding of each run's last delta, and the same unterminated tail. */
  lemma ReplayKeepsMeaning(env: Env, max: int, b: Bytes)
    requires EncoderFaithful(env)
    ensures var read := Reader(env);
      && Meaning(read, Cut(Replay(env, max, b)).frames) == Meaning(read, Cut(b).frames)
      && Cut(Replay(env, max, b)).tail == Cut(b).tail
  {
    if max > 0 {
      var c := Cut(b);
      EmptyContinues();
      CutSeparable(b, "");
      SeparableIsChain(c.frames, c.tail);
      FramesMeaning(env, max, c.frames);
      FramesCanCut(env, max, c.frames);
      var out := Flushed(env, AcceptFrames(env, max, c.frames));
      ChainIsSeparable(out, c.tail);
      CutConcat(out, c.tail);
    }
  }

  // ------------------------------------------------------------------- when nothing joins ----

  /** The frame's event may be joined with others at all. */
  function Joinable(env: Env, max: int, f: Bytes): Option<Group> {
    if |f| > max || OnlyEvent(f).None? then None else TextDelta(env, max, OnlyEvent(f).value)
  }

  /** Two neighbours that a replay joins. */
  predicate Joins(env: Env, max: int, x: Bytes, y: Bytes) {
    var g := Joinable(env, max, x);
    var d := Joinable(env, max, y);
    g.Some? && d.Some? && Compatible(g.value, d.value) && g.value.payloadBytes + d.value.payloadBytes <= max
  }

  /** What one frame does, by whether it can be joined. */
  lemma StepJoinable(env: Env, max: int, c: Coalescer, f: Bytes)
    ensures match Joinable(env, max, f)
      case None => AcceptFrame(env, max, c, f) == PassFrame(env, c, f)
      case Some(d) => AcceptFrame(env, max, c, f) == AcceptDelta(env, max, c, d) && d.raw == f && d.count == 1
  {
    if OnlyEvent(f).Some? {
      OnlyEventIs(f);
    }
  }

  /** The coalescer holds exactly the frames read, the last one pending if it can be joined. */
  ghost predicate Verbatim(env: Env, c: Coalescer, frames: seq<Bytes>, last: Option<Group>) {
    Flushed(env, c) == frames && c.pending == last && (last.Some? ==> last.value.count == 1)
  }

  lemma StepVerbatim(env: Env, c: Coalescer, t: Coalescer, max: int, frames: seq<Bytes>, last: Option<Group>, f: Bytes, next: Option<Group>)
    requires Verbatim(env, c, frames, last)
    requires match next
      case None => t == PassFrame(env, c, f)
      case Some(d) => t == AcceptDelta(env, max, c, d) && d.raw == f && d.count == 1
    requires last.Some? && next.Some? ==>
      !(Compatible(last.value, next.value) && last.value.payloadBytes + next.value.payloadBytes <= max)
    ensures Verbatim(env, t, frames + [f], next)
  {
    assert c.pending.None? ==> Flushed(env, c) == c.out;
    assert Flushed(env, t) == Flushed(env, c) + [f];
  }

  lemma NextVerbatim(env: Env, max: int, init: seq<Bytes>, f: Bytes)
    requires init != [] ==> !Joins(env, max, init[|init| - 1], f)
    requires Verbatim(env, AcceptFrames(env, max, init), init, LastJoinable(env, max, init))
    ensures Verbatim(env, AcceptFrames(env, max, init + [f]), init + [f], Joinable(env, max, f))
  {
    var c := AcceptFrames(env, max, init);
    FramesPush(env, max, init, f);
    StepJoinable(env, max, c, f);
    StepVerbatim(env, c, AcceptFrame(env, max, c, f), max, init, LastJoinable(env, max, init), f, Joinable(env, max, f));
  }

  /** No two neighbours join. */
  ghost predicate NoneJoin(env: Env, max: int, frames: seq<Bytes>) {
    forall k | 0 < k < |frames| :: !Joins(env, max, frames[k - 1], frames[k])
  }

  lemma NoneJoinInit(env: Env, max: int, init: seq<Bytes>, f: Bytes)
    requires NoneJoin(env, max, init + [f])
    ensures NoneJoin(env, max, init) && (init != [] ==> !Joins(env, max, init[|init| - 1], f))
  {
    var frames := init + [f];
    forall k | 0 < k < |init| ensures !Joins(env, max, init[k - 1], init[k]) {
      assert !Joins(env, max, frames[k - 1], frames[k]);
    }
    assert init != [] ==> !Joins(env, max, frames[|init| - 1], frames[|init|]);
  }

  /** Whether the last frame can be joined at all. */
  function LastJoinable(env: Env, max: int, frames: seq<Bytes>): Option<Group> {
    if frames == [] then None else Joinable(env, max, frames[|frames| - 1])
  }

  lemma {:induction false} FramesVerbatim(env: Env, max: int, frames: seq<Bytes>)
    requires NoneJoin(env, max, frames)
    ensures Verbatim(env, AcceptFrames(env, max, frames), frames, LastJoinable(env, max, frames))
    decreases |frames|
  {
    if frames != [] {
      var init, f := frames[..|frames| - 1], frames[|frames| - 1];
      assert frames == init + [f];
      NoneJoinInit(env, max, init, f);
      FramesVerbatim(env, max, init);
      NextVerbatim(env, max, init, f);
    }
  }

  /** When no two neighbours join, the output is the input byte for byte. */
  lemma ReplayVerbatim(env: Env, max: int, b: Bytes)
    requires forall k | 0 < k < |Cut(b).frames| :: !Joins(env, max, Cut(b).frames[k - 1], Cut(b).frames[k])
    ensures Replay(env, max, b) == b
  {
    if max > 0 {
      FramesVerbatim(env, max, Cut(b).frames);
      CutJoins(b, "");
      assert "" + b == b;
    }
  }

  // --------------------------------------------------------------------- when all can join ----

  /** The deltas of a run of frames that can all be joined. */
  ghost predicate IsRun(env: Env, max: int, run: seq<Bytes>, deltas: seq<Group>) {
    |run| == |deltas| && forall k | 0 <= k < |run| :: Joinable(env, max, run[k]) == Some(deltas[k])
  }

  function AcceptDeltas(env: Env, max: int, c: Coalescer, deltas: seq<Group>): Coalescer {
    if deltas == [] then c else
    AcceptDelta(env, max, AcceptDeltas(env, max, c, deltas[..|deltas| - 1]), deltas[|deltas| - 1])
  }

  lemma {:induction false} FoldSplit(step: (Coalescer, Bytes) -> Coalescer, c: Coalescer, before: seq<Bytes>, run: seq<Bytes>)
    ensures Fold(step, c, before + run) == Fold(step, Fold(step, c, before), run)
    decreases |run|
  {
    if run == [] {
      assert before + run == before;
    } else {
      FoldSplit(step, c, before, run[..|run| - 1]);
      assert (before + run)[..|before + run| - 1] == before + run[..|run| - 1];
    }
  }

  lemma {:induction false} FoldDeltas(env: Env, max: int, step: (Coalescer, Bytes) -> Coalescer, c: Coalescer, run: seq<Bytes>, deltas: seq<Group>)
    requires |run| == |deltas|
    requires forall k, x | 0 <= k < |run| :: step(x, run[k]) == AcceptDelta(env, max, x, deltas[k])
    ensures Fold(step, c, run) == AcceptDeltas(env, max, c, deltas)
    decreases |run|
  {
    if run != [] {
      var last := |run| - 1;
      assert forall k | 0 <= k < last :: run[..last][k] == run[k] && deltas[..last][k] == deltas[k];
      FoldDeltas(env, max, step, c, run[..last], deltas[..last]);
    }
  }

  lemma AcceptRun(env: Env, max: int, before: seq<Bytes>, run: seq<Bytes>, deltas: seq<Group>)
    requires IsRun(env, max, run, deltas)
    ensures AcceptFrames(env, max, before + run) == AcceptDeltas(env, max, AcceptFrames(env, max, before), deltas)
  {
    var step := Stepper(env, max);
    forall k, x | 0 <= k < |run| ensures step(x, run[k]) == AcceptDelta(env, max, x, deltas[k]) {
      StepJoinable(env, max, x, run[k]);
    }
    FoldSplit(step, START, before, run);
    FoldDeltas(env, max, step, AcceptFrames(env, max, before), run, deltas);
  }

  function Payload(deltas: seq<Group>): nat {
    if deltas == [] then 0 else Payload(deltas[..|deltas| - 1]) + deltas[|deltas| - 1].payloadBytes
  }

  function FieldsOf(deltas: seq<Group>): (fs: seq<Fields>)
    ensures |fs| == |deltas|
  {
    seq(|deltas|, i requires 0 <= i < |deltas| => deltas[i].fields)
  }

  /** The deltas of a run, joined. */
  function JoinedRun(deltas: seq<Group>): Group
    requires deltas != []
  {
    Group(deltas[0].eventName, JoinAll(FieldsOf(deltas)), deltas[0].raw, Payload(deltas), |deltas|)
  }

  lemma JoinedPush(init: seq<Group>, d: Group)
    requires init != [] && d.count == 1
    ensures JoinedRun(init + [d]) == Merge(JoinedRun(init), d)
  {
    var deltas := init + [d];
    assert deltas[..|init|] == init;
    assert FieldsOf(deltas)[..|init|] == FieldsOf(init);
  }

  lemma {:induction false} DeltasJoin(env: Env, max: int, c: Coalescer, deltas: seq<Group>)
    requires c.pending.None? && deltas != [] && Payload(deltas) <= max
    requires forall k | 0 <= k < |deltas| :: deltas[k].count == 1 && Compatible(deltas[0], deltas[k])
    ensures AcceptDeltas(env, max, c, deltas) == c.(pending := Some(JoinedRun(deltas)))
    decreases |deltas|
  {
    var init := deltas[..|deltas| - 1];
    var last := deltas[|deltas| - 1];
    if init == [] {
      assert AcceptDeltas(env, max, c, init) == c;
      assert Payload(init) == 0;
      assert FieldsOf(deltas) == [last.fields];
    } else {
      DeltasJoin(env, max, c, init);
      forall k | 0 <= k < |init| ensures Alike(FieldsOf(init)[0], FieldsOf(init)[k]) {
        assert Compatible(deltas[0], deltas[k]);
      }
      JoinAllIs(FieldsOf(init));
      JoinedPush(init, last);
      assert init + [last] == deltas;
      assert Compatible(deltas[0], last);
    }
  }

  /** After a barrier, a whole run of one route that fits the limit becomes a single frame: a lone delta
      its own bytes, several the encoded fields with all of their text and the last sequence number and
      padding. */
  lemma RunBecomesOne(env: Env, max: int, before: seq<Bytes>, run: seq<Bytes>, deltas: seq<Group>)
    requires before == [] || Joinable(env, max, before[|before| - 1]).None?
    requires run != [] && IsRun(env, max, run, deltas) && Payload(deltas) <= max
    requires forall k | 0 <= k < |deltas| :: Compatible(deltas[0], deltas[k])
    ensures var f := JoinAll(FieldsOf(deltas));
      && Flushed(env, AcceptFrames(env, max, before + run)) == Flushed(env, AcceptFrames(env, max, before))
         + [if |run| == 1 then run[0] else SseFrame.Frame(deltas[0].eventName, env.encode(f))]
      && f == deltas[0].fields.(delta := Concat(Deltas(FieldsOf(deltas))),
                                sequence := deltas[|deltas| - 1].fields.sequence,
                                obfuscation := deltas[|deltas| - 1].fields.obfuscation)
  {
    var c := AcceptFrames(env, max, before);
    BarrierFlushes(env, max, before);
    RunDeltas(env, max, run, deltas);
    AcceptRun(env, max, before, run, deltas);
    DeltasJoin(env, max, c, deltas);
    JoinedFields(deltas);
    OneMore(env, c, JoinedRun(deltas));
  }

  lemma RunDeltas(env: Env, max: int, run: seq<Bytes>, deltas: seq<Group>)
    requires IsRun(env, max, run, deltas)
    ensures forall k | 0 <= k < |deltas| :: deltas[k].count == 1 && deltas[k].raw == run[k]
  {
    forall k | 0 <= k < |deltas| ensures deltas[k].count == 1 && deltas[k].raw == run[k] {
      assert Joinable(env, max, run[k]) == Some(deltas[k]);
      StepJoinable(env, max, START, run[k]);
    }
  }

  lemma JoinedFields(deltas: seq<Group>)
    requires deltas != [] && forall k | 0 <= k < |deltas| :: Compatible(deltas[0], deltas[k])
    ensures JoinAll(FieldsOf(deltas)) == deltas[0].fields.(delta := Concat(Deltas(FieldsOf(deltas))),
                                                           sequence := deltas[|deltas| - 1].fields.sequence,
                                                           obfuscation := deltas[|deltas| - 1].fields.obfuscation)
  {
    forall k | 0 <= k < |deltas| ensures Alike(FieldsOf(deltas)[0], FieldsOf(deltas)[k]) {
      assert Compatible(deltas[0], deltas[k]);
    }
    JoinAllIs(FieldsOf(deltas));
  }

  lemma OneMore(env: Env, c: Coalescer, g: Group)
    requires c.pending.None?
    ensures Flushed(env, c.(pending := Some(g))) == Flushed(env, c) + [GroupFrame(env, g)]
  {
    EmptyPlus(c.out);
  }

  lemma BarrierFlushes(env: Env, max: int, frames: seq<Bytes>)
    requires frames == [] || Joinable(env, max, frames[|frames| - 1]).None?
    ensures AcceptFrames(env, max, frames).pending.None?
  {
    if frames != [] {
      BarrierLast(env, max, frames[..|frames| - 1], frames[|frames| - 1]);
      assert frames == frames[..|frames| - 1] + [frames[|frames| - 1]];
    }
  }

  lemma BarrierLast(env: Env, max: int, init: seq<Bytes>, last: Bytes)
    requires Joinable(env, max, last).None?
    ensures AcceptFrames(env, max, init + [last]).pending.None?
  {
    FramesPush(env, max, init, last);
    BarrierStep(env, max, AcceptFrames(env, max, init), last);
  }

  lemma BarrierStep(env: Env, max: int, c: Coalescer, f: Bytes)
    requires Joinable(env, max, f).None?
    ensures AcceptFrame(env, max, c, f).pending.None?
  {
    StepJoinable(env, max, c, f);
  }
}
