/**
 Heartbeats between the frames of a response (sse.go, keepalive): what a client reads from all the bytes
 it gets, heartbeats included.
 */
module CaptureBeats {
  import opened Common
  import opened SseParser
  import opened SseRoundTrip
  import opened Capture
  import opened CaptureTransparency
  import SseFrame

  /** All bytes of these writes, heartbeats included. */
  function All(ws: seq<Write>): Bytes {
    if ws == [] then "" else (if ws[0].Header? then "" else ws[0].bytes) + All(ws[1..])
  }

  /** A heartbeat is read as these records, wherever it stands between frames. */
  ghost predicate Beats(k: Bytes, ke: seq<Event>) {
    && k != "" && !IsBreak(k[0])
    && Run(0, Fresh(true), k) == Out(Fresh(true), ke) && Run(0, Fresh(false), k) == Out(Fresh(true), ke)
  }

  /** Records that were read inside of a stream. */
  ghost predicate Insides(es: seq<Event>) {
    forall i | 0 <= i < |es| :: Closes(true, es[i])
  }

  /** What a client is to read when the frames carry one record each, and heartbeats stand between. */
  function Heard(ke: seq<Event>, ws: seq<Write>, es: seq<Event>): seq<Event>
    decreases |ws|
  {
    if ws == [] then []
    else if ws[0].Keepalive? then ke + Heard(ke, ws[1..], es)
    else if ws[0].Frame? && es != [] then [es[0]] + Heard(ke, ws[1..], es[1..])
    else Heard(ke, ws[1..], es)
  }

  lemma BeatFeeds(k: Bytes, ke: seq<Event>, started: bool, rest: Bytes)
    requires Beats(k, ke)
    ensures Feed(0, Fresh(started), k + rest, true).events == ke + Feed(0, Fresh(true), rest, true).events
  {
    FeedSplit(0, Fresh(started), k, rest, true);
  }

  lemma FramesCons(w: Write, ws: seq<Write>)
    ensures Frames([w] + ws) == (if w.Frame? then [w.bytes] else []) + Frames(ws)
  {
    FramesSplit([w], ws);
    assert [w][..0] == [];
  }

  /** The bytes of writes like these do not begin with a line feed. */
  ghost predicate OpensFrame(b: Bytes) {
    b != "" ==> b[0] != '\n'
  }

  lemma FirstIsFrame(k: Bytes, ws: seq<Write>, es: seq<Event>)
    requires Follows(k, ws, Raws(es)) && ws != [] && ws[0].Frame?
    ensures es != [] && ws[0].bytes == es[0].raw && Follows(k, ws[1..], Raws(es[1..]))
  {
    assert ws == [ws[0]] + ws[1..];
    FramesCons(ws[0], ws[1..]);
    assert Raws(es)[0] == ws[0].bytes && Raws(es)[1..] == Raws(es[1..]);
  }

  lemma FirstIsBeat(k: Bytes, ws: seq<Write>, es: seq<Event>)
    requires Follows(k, ws, Raws(es)) && ws != [] && !ws[0].Frame?
    ensures ws[0] == Keepalive(k) && Follows(k, ws[1..], Raws(es))
  {
    assert ws == [ws[0]] + ws[1..] && ws[0] in ws;
    FramesCons(ws[0], ws[1..]);
    EmptyPlus(Frames(ws[1..]));
  }

  lemma OneThen(e: Event, rest: Bytes)
    requires OpensFrame(rest) && Closes(true, e)
    ensures Feed(0, Fresh(true), e.raw + rest, true).events == [e] + Feed(0, Fresh(true), rest, true).events
    ensures OpensFrame(e.raw + rest)
  {
    FeedFrame(true, e, rest);
  }

  /** The writes after the prefix, read inside of the stream. */
  lemma {:induction false} WritesRead(k: Bytes, ke: seq<Event>, ws: seq<Write>, es: seq<Event>)
    requires Beats(k, ke) && Follows(k, ws, Raws(es)) && Insides(es)
    ensures Feed(0, Fresh(true), All(ws), true).events == Heard(ke, ws, es) && OpensFrame(All(ws))
    decreases |ws|
  {
    if ws != [] {
      if ws[0].Frame? {
        FirstIsFrame(k, ws, es);
        WritesRead(k, ke, ws[1..], es[1..]);
        OneThen(es[0], All(ws[1..]));
      } else {
        FirstIsBeat(k, ws, es);
        WritesRead(k, ke, ws[1..], es);
        BeatFeeds(k, ke, true, All(ws[1..]));
      }
    }
  }

  /** Records, and then more bytes. */
  lemma {:induction false} FramesThen(es: seq<Event>, rest: Bytes)
    requires OpensFrame(rest) && Insides(es)
    ensures Feed(0, Fresh(true), Concat(Raws(es)) + rest, true).events == es + Feed(0, Fresh(true), rest, true).events
    ensures OpensFrame(Concat(Raws(es)) + rest)
    decreases |es|
  {
    if es == [] {
      EmptyPlus(rest);
    } else {
      FramesThen(es[1..], rest);
      RawsCons(es);
      Assoc(es[0].raw, Concat(Raws(es[1..])), rest);
      OneThen(es[0], Concat(Raws(es[1..])) + rest);
      Assoc([es[0]], es[1..], Feed(0, Fresh(true), rest, true).events);
      assert [es[0]] + es[1..] == es;
    }
  }

  /** A record at the very start, and then more bytes. */
  lemma OpenThen(e: Event, rest: Bytes)
    requires (Closes(true, e) || Closes(false, e)) && OpensFrame(rest)
    ensures Parse(e.raw + rest) == Parse(e.raw) + Feed(0, Fresh(true), rest, true).events
  {
    if Closes(true, e) {
      FeedFirstFrame(e, rest);
    } else {
      FeedFrame(false, e, rest);
      ParseClosed(e);
    }
  }

  /** The prefix in one frame, and then one frame for each later record, with heartbeats between. */
  ghost predicate Carries(k: Bytes, trace: seq<Write>, a: seq<Event>, b: seq<Event>) {
    Shape(k, trace, Concat(Raws(a)), Raws(b)) && AllClose(false, a + b)
  }

  predicate BeatFirst(trace: seq<Write>, a: seq<Event>) {
    a == [] && |trace| > 2 && trace[2].Keepalive?
  }

  /** What the client is to read: every record, with the heartbeats where they were sent. */
  function Woven(ke: seq<Event>, trace: seq<Write>, a: seq<Event>, b: seq<Event>): seq<Event>
    requires |trace| >= 2
  {
    a + Heard(ke, trace[2..], b)
  }

  /** What must be true of the first record's bytes where the client reads them. */
  predicate OpensWell(trace: seq<Write>, a: seq<Event>, b: seq<Event>) {
    a + b != [] ==> if BeatFirst(trace, a) then ReadsInside((a + b)[0]) else ReadsAlike((a + b)[0])
  }

  lemma AllOf(k: Bytes, trace: seq<Write>, prefix: Bytes, frames: seq<Bytes>)
    requires Shape(k, trace, prefix, frames)
    ensures All(trace) == prefix + All(trace[2..])
  {
    assert trace[1..][1..] == trace[2..];
    EmptyPlus(All(trace[1..]));
  }

  lemma SameHead(x: seq<Event>, y: seq<Event>, tail: seq<Event>)
    ensures x + tail == y + tail <==> x == y
  {
    if x + tail == y + tail {
      assert |x| == |y|;
      assert x == (x + tail)[..|x|] && y == (y + tail)[..|y|];
    }
  }

  lemma SameTail(head: seq<Event>, x: seq<Event>, y: seq<Event>)
    ensures head + x == head + y <==> x == y
  {
    if head + x == head + y {
      assert x == (head + x)[|head|..] && y == (head + y)[|head|..];
    }
  }

  /** The first record stands for itself in what is heard. */
  lemma {:induction false} HeardFirst(ke: seq<Event>, k: Bytes, ws: seq<Write>, x: Event, y: Event, tail: seq<Event>)
    requires Follows(k, ws, Raws([x] + tail)) && x.raw == y.raw
    ensures Heard(ke, ws, [x] + tail) == Heard(ke, ws, [y] + tail) <==> x == y
    decreases |ws|
  {
    assert ws != [];
    var w, rest := ws[0], ws[1..];
    assert ws == [w] + rest;
    FramesCons(w, rest);
    if w.Keepalive? {
      EmptyPlus(Frames(rest));
      HeardFirst(ke, k, rest, x, y, tail);
      SameTail(ke, Heard(ke, rest, [x] + tail), Heard(ke, rest, [y] + tail));
    } else {
      assert ([x] + tail)[1..] == tail && ([y] + tail)[1..] == tail;
      SameHead([x], [y], Heard(ke, rest, tail));
    }
  }

  lemma LaterClose(a: seq<Event>, b: seq<Event>)
    requires AllClose(false, a + b)
    ensures a != [] ==> (Closes(true, a[0]) || Closes(false, a[0])) && Insides(a[1..])
    ensures a != [] ==> Insides(b)
    ensures a == [] && b != [] ==> (Closes(true, b[0]) || Closes(false, b[0])) && Insides(b[1..])
  {
    forall i | 0 <= i < |a| ensures a[i] == (a + b)[i] {
    }
    forall i | 0 <= i < |b| ensures b[i] == (a + b)[|a| + i] {
    }
  }

  /** A record, then whatever reads to `more`. */
  lemma OpensAlikeIff(e: Event, rest: Bytes, more: seq<Event>)
    requires (Closes(true, e) || Closes(false, e)) && OpensFrame(rest) && Feed(0, Fresh(true), rest, true).events == more
    ensures Parse(e.raw + rest) == [e] + more <==> ReadsAlike(e)
  {
    OpenThen(e, rest);
    SameHead(Parse(e.raw), [e], more);
    AlikeIff(e);
  }

  /** The rest of the prefix, and the writes after it. */
  lemma RestRead(k: Bytes, ke: seq<Event>, ws: seq<Write>, a: seq<Event>, b: seq<Event>)
    requires Beats(k, ke) && Follows(k, ws, Raws(b))
    requires Insides(a) && Insides(b)
    ensures Feed(0, Fresh(true), Concat(Raws(a)) + All(ws), true).events == a + Heard(ke, ws, b)
    ensures OpensFrame(Concat(Raws(a)) + All(ws))
  {
    WritesRead(k, ke, ws, b);
    FramesThen(a, All(ws));
  }

  /** The prefix holds the first record. */
  lemma PrefixRead(k: Bytes, ke: seq<Event>, ws: seq<Write>, a: seq<Event>, b: seq<Event>)
    requires Beats(k, ke) && Follows(k, ws, Raws(b)) && AllClose(false, a + b) && a != []
    ensures Parse(Concat(Raws(a)) + All(ws)) == a + Heard(ke, ws, b) <==> ReadsAlike(a[0])
  {
    var first, later := a[0], a[1..];
    LaterClose(a, b);
    RestRead(k, ke, ws, later, b);
    OpensAlikeIff(first, Concat(Raws(later)) + All(ws), later + Heard(ke, ws, b));
    RawsCons(a);
    Assoc(first.raw, Concat(Raws(later)), All(ws));
    assert [first] + later == a;
    Assoc([first], later, Heard(ke, ws, b));
  }

  /** The first record comes before any heartbeat. */
  lemma RecordFirstRead(k: Bytes, ke: seq<Event>, ws: seq<Write>, b: seq<Event>)
    requires Beats(k, ke) && Follows(k, ws, Raws(b)) && AllClose(false, [] + b) && ws != [] && ws[0].Frame?
    ensures b != [] && (Parse(All(ws)) == Heard(ke, ws, b) <==> ReadsAlike(b[0]))
  {
    FirstIsFrame(k, ws, b);
    LaterClose([], b);
    WritesRead(k, ke, ws[1..], b[1..]);
    OpensAlikeIff(b[0], All(ws[1..]), Heard(ke, ws[1..], b[1..]));
  }

  /** A heartbeat comes first: every record is read inside of the stream. */
  lemma BeatFirstRead(k: Bytes, ke: seq<Event>, ws: seq<Write>, b: seq<Event>)
    requires Beats(k, ke) && Follows(k, ws, Raws(b)) && AllClose(false, [] + b) && ws != [] && !ws[0].Frame?
    ensures Parse(All(ws)) == Heard(ke, ws, b) <==> (b != [] ==> ReadsInside(b[0]))
  {
    FirstIsBeat(k, ws, b);
    if b == [] {
      BehindBeat(k, ke, ws, b);
    } else {
      LaterClose([], b);
      BeatFirstSome(k, ke, ws, b);
    }
  }

  lemma BeatFirstSome(k: Bytes, ke: seq<Event>, ws: seq<Write>, b: seq<Event>)
    requires Beats(k, ke) && ws != [] && ws[0] == Keepalive(k) && Follows(k, ws, Raws(b)) && Follows(k, ws[1..], Raws(b))
    requires b != [] && (Closes(true, b[0]) || Closes(false, b[0])) && Insides(b[1..])
    ensures Parse(All(ws)) == Heard(ke, ws, b) <==> ReadsInside(b[0])
  {
    OwnFirst(b);
    BeatThenFirst(k, ke, ws, Own(b[0].raw), b[0], b[1..]);
    assert [b[0]] + b[1..] == b;
  }

  lemma BeatThenFirst(k: Bytes, ke: seq<Event>, ws: seq<Write>, x: Event, y: Event, tail: seq<Event>)
    requires Beats(k, ke) && ws != [] && ws[0] == Keepalive(k) && x.raw == y.raw
    requires Follows(k, ws, Raws([x] + tail)) && Follows(k, ws[1..], Raws([x] + tail)) && Insides([x] + tail)
    ensures Parse(All(ws)) == Heard(ke, ws, [y] + tail) <==> x == y
  {
    BehindBeat(k, ke, ws, [x] + tail);
    HeardFirst(ke, k, ws, x, y, tail);
  }

  /** The first record as its own bytes say, read inside, and the others. */
  lemma OwnFirst(b: seq<Event>)
    requires b != [] && (Closes(true, b[0]) || Closes(false, b[0])) && Insides(b[1..])
    ensures Single(b[0].raw) && (Own(b[0].raw) == b[0] <==> ReadsInside(b[0]))
    ensures var own := [Own(b[0].raw)] + b[1..]; Raws(own) == Raws(b) && Insides(own)
  {
    InsideSingle(b[0]);
    SingleCloses(b[0].raw);
    ReplaceFirst(Own(b[0].raw), b);
  }

  lemma ReplaceFirst(x: Event, b: seq<Event>)
    requires b != [] && x.raw == b[0].raw && Closes(true, x) && Insides(b[1..])
    ensures var own := [x] + b[1..]; Raws(own) == Raws(b) && Insides(own)
  {
    SameRaws(x, b);
    InsideCons(x, b[1..]);
  }

  lemma SameRaws(x: Event, b: seq<Event>)
    requires b != [] && x.raw == b[0].raw
    ensures Raws([x] + b[1..]) == Raws(b)
  {
  }

  lemma InsideCons(x: Event, tail: seq<Event>)
    requires Closes(true, x) && Insides(tail)
    ensures Insides([x] + tail)
  {
    InsideAll([x] + tail, x, tail);
  }

  lemma InsideAll(all: seq<Event>, x: Event, tail: seq<Event>)
    requires Closes(true, x) && Insides(tail) && all == [x] + tail
    ensures Insides(all)
  {
    forall i | 0 <= i < |all| ensures Closes(true, all[i]) {
      var e := all[i];
      assert e == if i == 0 then x else tail[i - 1];
    }
  }

  lemma BehindBeat(k: Bytes, ke: seq<Event>, ws: seq<Write>, es: seq<Event>)
    requires Beats(k, ke) && ws != [] && ws[0] == Keepalive(k) && Follows(k, ws[1..], Raws(es))
    requires Insides(es)
    ensures Parse(All(ws)) == Heard(ke, ws, es)
  {
    WritesRead(k, ke, ws[1..], es);
    BeatFeeds(k, ke, false, All(ws[1..]));
  }

  /** From all the bytes, heartbeats included, a client reads exactly the records, with the heartbeats
      where they were sent, if and only if the first record reads alike where it stands: at the start of
      the stream, or behind a heartbeat. */
  lemma AllRead(k: Bytes, ke: seq<Event>, trace: seq<Write>, a: seq<Event>, b: seq<Event>)
    requires Beats(k, ke) && Carries(k, trace, a, b)
    ensures Parse(All(trace)) == Woven(ke, trace, a, b) <==> OpensWell(trace, a, b)
  {
    var ws := trace[2..];
    AllOf(k, trace, Concat(Raws(a)), Raws(b));
    if a != [] {
      PrefixRead(k, ke, ws, a, b);
    } else {
      assert a + b == b;
      EmptyPlus(All(ws));
      EmptyPlus(Heard(ke, ws, b));
      if ws == [] {
        assert Raws(b) == [];
      } else if ws[0].Frame? {
        RecordFirstRead(k, ke, ws, b);
      } else {
        assert ws[0] in ws;
        BeatFirstRead(k, ke, ws, b);
      }
    }
  }

  // ------------------------------------------------------------------------- whole captures ----

  lemma {:induction false} LiveFrames<W(!new)>(wire: Wire<W>, w: W, evs: seq<Event>)
    requires RawLive(wire)
    requires !LiveRun(wire, w, Init(evs)).done && LiveRun(wire, w, Init(evs)).fail.None?
    ensures var o := LiveRun(wire, w, evs); o.frames == Raws(evs) || (o.fail.Some? && o.frames == Raws(Init(evs)))
    decreases |evs|
  {
    if evs != [] {
      var init, ev := Init(evs), evs[|evs| - 1];
      assert evs == init + [ev];
      var before := LiveRun(wire, w, init);
      LiveFrames(wire, w, init);
      assert RawFrames(wire.live(before.state, ev), ev);
      assert Raws(init + [ev]) == Raws(init) + [ev.raw];
      EmptyPlus(Raws(init));
    }
  }

  /** The records that a client of a raw protocol was sent after the commit: all that were looked at, or
      all but one that failed. */
  ghost function Told<W>(s: Setup<W>, l: Ledger<W>): seq<Event> {
    if LiveOf(s, l).frames == Raws(l.live) then l.live else Init(l.live)
  }

  /** A capture that was committed, and whose prefix got across, on a protocol that passes on raw bytes:
      its client reads every record it was sent, with the heartbeats where they were sent, if and only
      if the first one reads alike where it stands. */
  lemma CaptureRead<W(!new)>(s: Setup<W>, l: Ledger<W>, ke: seq<Event>, max: int, fed: Bytes, eof: bool)
    requires l.committed && LiveRecord(s, l) && Complete(s, Prefix(s, l)) && NothingPast(s, l)
    requires RawLive(s.wire) && RawPrefix(s.wire, Concat(Raws(l.buffered))) && Beats(s.wire.keepalive, ke)
    requires l.buffered + l.live <= Feed(max, Fresh(false), fed, eof).events
    ensures Told(s, l) == l.live || (LiveOf(s, l).fail.Some? && Told(s, l) == Init(l.live))
    ensures Parse(All(l.trace)) == Woven(ke, l.trace, l.buffered, Told(s, l)) <==> OpensWell(l.trace, l.buffered, Told(s, l))
  {
    var told := Told(s, l);
    LiveFrames(s.wire, Prefix(s, l).state, l.live);
    assert Concat(Prefix(s, l).frames) == Concat(Raws(l.buffered));
    FreshFaithful();
    FeedCloses(max, false, Fresh(false), fed, eof);
    ToldCloses(l.buffered, l.live, told, Feed(max, Fresh(false), fed, eof).events);
    AllRead(s.wire.keepalive, ke, l.trace, l.buffered, told);
  }

  lemma CaptureFollows<W(!new)>(s: Setup<W>, l: Ledger<W>)
    requires l.committed && LiveRecord(s, l) && NothingPast(s, l) && RawLive(s.wire)
    ensures |l.trace| >= 2 && Follows(s.wire.keepalive, l.trace[2..], Raws(Told(s, l)))
  {
    LiveFrames(s.wire, Prefix(s, l).state, l.live);
  }

  lemma ToldCloses(a: seq<Event>, b: seq<Event>, told: seq<Event>, all: seq<Event>)
    requires AllClose(false, all) && a + b <= all && (told == b || told == Init(b))
    ensures AllClose(false, a + told)
  {
    forall i | 0 <= i < |a + told| ensures (a + told)[i] == all[i] {
      assert (a + told)[i] == (a + b)[i];
    }
  }

  // ----------------------------------------------------------------------- the heartbeats ----

  lemma BothStarts(b: Bytes, es: seq<Event>)
    requires !(BOM <= b) && Run(0, Fresh(false), b) == Out(Fresh(true), es)
    ensures Run(0, Fresh(true), b) == Out(Fresh(true), es)
  {
    assert Fresh(true).line + b == b;
    RunNoBom(Fresh(true), b);
  }

  /** A comment frame is no record. */
  lemma CommentBeats(line: Bytes)
    requires Plain(line) && line != "" && line[0] == ':'
    ensures Beats(line + "\n" + "\n", [])
  {
    var b := line + "\n" + "\n";
    var t := Live("" + (line + "\n"), "", false, true, NO_RECORD);
    assert BOM[0] != ':' && StripBom(line) == line;
    assert IndexOf(line, ':') == 0;
    SseFrame.RunLine(Fresh(false), line);
    assert EndLine(Fresh(false).(raw := "" + (line + "\n"), line := line)) == Out(t, []);
    RunSplit(0, Fresh(false), line + "\n", "\n");
    RunOne(0, t, '\n');
    assert "\n" == ['\n'];
    assert b[0] == ':';
    BothStarts(b, []);
  }

  /** A written frame is its record. */
  lemma FrameBeats(name: Bytes, data: Bytes)
    requires Plain(name) && Plain(data)
    ensures var f := SseFrame.Frame(name, data); Beats(f, [Event(name, data, f)])
  {
    var f := SseFrame.Frame(name, data);
    SseFrame.FrameRuns(name, data);
    assert f[0] == if name == "" then 'd' else 'e';
    BothStarts(f, [Event(name, data, f)]);
  }

  /** Comments are not heard. */
  lemma {:induction false} HeardComments(k: Bytes, ws: seq<Write>, es: seq<Event>)
    requires Follows(k, ws, Raws(es))
    ensures Heard([], ws, es) == es
    decreases |ws|
  {
    if ws == [] {
      assert Raws(es) == [];
    } else if ws[0].Frame? {
      FirstIsFrame(k, ws, es);
      HeardComments(k, ws[1..], es[1..]);
    } else {
      FirstIsBeat(k, ws, es);
      HeardComments(k, ws[1..], es);
    }
  }

  /** Where heartbeats are comments, the client reads the records and nothing else. */
  lemma CommentRead<W(!new)>(s: Setup<W>, l: Ledger<W>, max: int, fed: Bytes, eof: bool)
    requires l.committed && LiveRecord(s, l) && Complete(s, Prefix(s, l)) && NothingPast(s, l)
    requires RawLive(s.wire) && RawPrefix(s.wire, Concat(Raws(l.buffered))) && Beats(s.wire.keepalive, [])
    requires l.buffered + l.live <= Feed(max, Fresh(false), fed, eof).events
    ensures Told(s, l) == l.live || (LiveOf(s, l).fail.Some? && Told(s, l) == Init(l.live))
    ensures Parse(All(l.trace)) == l.buffered + Told(s, l) <==> OpensWell(l.trace, l.buffered, Told(s, l))
  {
    CaptureRead(s, l, [], max, fed, eof);
    CaptureFollows(s, l);
    HeardComments(s.wire.keepalive, l.trace[2..], Told(s, l));
  }

  // --------------------------------------------------------------- a mark behind a heartbeat ----

  /** A frame of one line. */
  lemma OneLine(started: bool, line: Bytes)
    requires Plain(line) && (started || StripBom(line) != "") && line != ""
    ensures var cur := Field(NO_RECORD, if started then line else StripBom(line));
      Feed(0, Fresh(started), line + "\n\n", true).events
      == if cur.has then [Event(cur.name, cur.data, line + "\n\n")] else []
  {
    var s := Live(line, line, false, started, NO_RECORD);
    assert "" + line == line;
    RunPlain(0, Fresh(started), line);
    FeedSplit(0, Fresh(started), line, "\n\n", true);
    FeedLineThenBlank(s);
    Assoc(line, ['\n'], ['\n']);
    assert ['\n'] + ['\n'] == "\n\n";
  }

  /** The line `data: x` with a mark in front: data where the mark is dropped, an unknown field elsewhere. */
  lemma MarkedData(line: Bytes)
    requires line == "data: x"
    ensures Plain(BOM + line) && StripBom(BOM + line) == line
    ensures Field(NO_RECORD, line) == NO_RECORD.(has := true, hasData := true, data := "x")
    ensures Field(NO_RECORD, BOM + line) == NO_RECORD.(has := true)
  {
    SseFrame.DataField(NO_RECORD, "x");
    assert "data" + ": " + "x" == line;
    assert (BOM + line)[|BOM|..] == line;
    IndexIs(BOM + line, ':', 7);
    assert (BOM + line)[..7][0] == BOM[0];
  }

  /** A commit on a tick before the first record: an empty prefix, a heartbeat, the record. */
  function TickFirst(k: Bytes, raw: Bytes): seq<Write> {
    [Header(true), Frame(""), Keepalive(k), Frame(raw)]
  }

  lemma TickCarries(k: Bytes, raw: Bytes, sent: Event)
    requires sent.raw == raw && (Closes(true, sent) || Closes(false, sent))
    ensures Carries(k, TickFirst(k, raw), [], [sent])
  {
    var trace := TickFirst(k, raw);
    TickWrites(k, raw);
    assert Raws([sent]) == [raw] && Raws([]) == [];
    assert [] + [sent] == [sent];
  }

  lemma TickWrites(k: Bytes, raw: Bytes)
    ensures TickFirst(k, raw)[2..] == [Keepalive(k), Frame(raw)] && Follows(k, [Keepalive(k), Frame(raw)], [raw])
  {
    FramesCons(Keepalive(k), [Frame(raw)]);
    FramesCons(Frame(raw), []);
    assert [Keepalive(k)] + [Frame(raw)] == [Keepalive(k), Frame(raw)] && [Frame(raw)] + [] == [Frame(raw)];
  }

  lemma TickBytes(k: Bytes, raw: Bytes)
    ensures All(TickFirst(k, raw)) == k + raw
  {
    AllCons(Frame(raw), []);
    AllCons(Keepalive(k), [Frame(raw)]);
    AllCons(Frame(""), [Keepalive(k), Frame(raw)]);
    AllCons(Header(true), [Frame(""), Keepalive(k), Frame(raw)]);
    assert [Frame(raw)] + [] == [Frame(raw)] && [Keepalive(k)] + [Frame(raw)] == [Keepalive(k), Frame(raw)];
    assert [Frame("")] + [Keepalive(k), Frame(raw)] == [Frame(""), Keepalive(k), Frame(raw)];
    assert [Header(true)] + [Frame(""), Keepalive(k), Frame(raw)] == TickFirst(k, raw);
    EmptyPlus(raw);
    EmptyPlus(k + raw);
  }

  lemma AllCons(w: Write, ws: seq<Write>)
    ensures All([w] + ws) == (if w.Header? then "" else w.bytes) + All(ws)
  {
    assert ([w] + ws)[1..] == ws;
  }

  /** The failing stream: it opens with a mark, and a keepalive tick commits before its first record. Its
      data is lost to the client, which reads the record with an unknown field instead. */
  lemma MarkBehindBeat(line: Bytes)
    requires line == "data: x"
    ensures var raw := BOM + line + "\n\n";
      && Feed(0, Fresh(false), raw, true).events == [Event("", "x", raw)]
      && Carries(COMMENT, TickFirst(COMMENT, raw), [], [Event("", "x", raw)])
      && Parse(All(TickFirst(COMMENT, raw))) == [Event("", "", raw)]
  {
    MarkedData(line);
    OneLine(false, BOM + line);
    OneLine(true, BOM + line);
    CommentIsBeat();
    var raw := BOM + line + "\n\n";
    ReadBehind(COMMENT, raw, Event("", "x", raw), Event("", "", raw));
  }

  lemma CommentIsBeat()
    ensures Beats(COMMENT, [])
  {
    CommentBeats(": keepalive");
    assert ": keepalive" + "\n" + "\n" == COMMENT;
  }

  lemma ReadBehind(k: Bytes, raw: Bytes, sent: Event, got: Event)
    requires Beats(k, []) && sent.raw == raw
    requires Feed(0, Fresh(false), raw, true).events == [sent] && Feed(0, Fresh(true), raw, true).events == [got]
    ensures Carries(k, TickFirst(k, raw), [], [sent]) && Parse(All(TickFirst(k, raw))) == [got]
  {
    BeatFeeds(k, [], false, raw);
    TickBytes(k, raw);
    FreshFaithful();
    FeedCloses(0, false, Fresh(false), raw, true);
    TickCarries(k, raw, sent);
  }
}
