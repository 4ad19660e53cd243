/**
 Re-reading what was emitted: the raw bytes of the records, put end to end, parse back to the same
 records, with one exact exception at a byte-order mark that was not at the start of the stream.
 */
module SseRoundTrip {
  import opened Common
  import opened SseParser
  import opened SseLines
  import SseDocument

  function Raws(events: seq<Event>): (r: seq<Bytes>)
    ensures |r| == |events|
  {
    seq(|events|, i requires 0 <= i < |events| => events[i].raw)
  }

  /** Reading a whole buffer with a fresh, unbounded parser, as every replay does. */
  function Parse(b: Bytes): seq<Event> {
    Feed(0, Fresh(false), b, true).events
  }

  /** The frame of e, read from a fresh machine, ends with exactly e and nothing left over. */
  ghost predicate Closes(started: bool, e: Event) {
    var r := Run(0, Fresh(started), e.raw);
    && e.raw != "" && !IsBreak(e.raw[0])
    && (|| r == Out(Fresh(true), [e])
        || (r.state.Live? && r.state.cr && r.events == [] && EndLine(r.state) == Out(Fresh(true), [e])))
  }

  /** The machine state is what reading the current frame alone would give. */
  ghost predicate Faithful(started: bool, s: State) {
    && s.Live?
    && Run(0, Fresh(started), s.raw) == Out(s, [])
    && (s.raw != "" && IsBreak(s.raw[0]) ==> s.raw == "\r" && s.cr && !s.cur.has)
    && (s.raw == "" ==> s == Fresh(started))
  }

  /** Every record closes on its own; only the first may belong to a frame read with `started`. */
  ghost predicate AllClose(started: bool, events: seq<Event>) {
    && (forall i | 0 < i < |events| :: Closes(true, events[i]))
    && (events != [] ==> Closes(true, events[0]) || Closes(started, events[0]))
  }

  // ----------------------------------------------------------- what is emitted closes ----

  lemma RunPush(s0: State, b: Bytes, c: char)
    ensures Run(0, s0, b + [c]) == After(Run(0, s0, b).events, Step(0, Run(0, s0, b).state, c))
  {
    RunSplit(0, s0, b, [c]);
    RunOne(0, Run(0, s0, b).state, c);
  }

  lemma FaithfulCr(started: bool, s: State)
    requires Faithful(started, s) && s.raw == "\r"
    ensures s.line == ""
  {
    RunOne(0, Fresh(started), '\r');
  }

  /** A line that is not ended by LF yet: the frame grows, or a blank line starts a new one. */
  lemma PushFaithful(started: bool, s: State, c: char)
    requires Faithful(started, s) && !s.cr
    ensures var o := Push(0, s, c);
      && |o.events| <= 1 && (o.events != [] ==> Closes(started, o.events[0]) && o.state == Fresh(true))
      && (Faithful(started, o.state) || Faithful(true, o.state))
  {
    RunPush(Fresh(started), s.raw, c);
    AfterAfter([], [], Step(0, s, c));
  }

  /** The pending CR belongs to a CRLF. */
  lemma CrlfFaithful(started: bool, s: State)
    requires Faithful(started, s) && s.cr
    ensures var o := EndLine(s.(raw := s.raw + ['\n']));
      && |o.events| <= 1 && (o.events != [] ==> Closes(started, o.events[0]) && o.state == Fresh(true))
      && (Faithful(started, o.state) || Faithful(true, o.state))
  {
    RunPush(Fresh(started), s.raw, '\n');
    AfterAfter([], [], Step(0, s, '\n'));
    if s.raw == "\r" {
      FaithfulCr(started, s);
    }
  }

  /** The pending CR ended its line alone; c starts the next one. */
  lemma CrFaithful(started: bool, s: State, c: char)
    requires Faithful(started, s) && s.cr && c != '\n'
    ensures var e := EndLine(s);
      var o := Step(0, s, c);
      && |e.events| <= 1 && (e.events != [] ==> Closes(started, e.events[0]))
      && o.events == e.events
      && (Faithful(started, o.state) || Faithful(true, o.state))
      && (e.events != [] ==> Faithful(true, o.state))
  {
    RunPush(Fresh(started), s.raw, c);
    AfterAfter([], [], Step(0, s, c));
    RunOne(0, Fresh(true), c);
    if s.raw == "\r" {
      FaithfulCr(started, s);
    }
    var e := EndLine(s);
    var o := Push(0, e.state, c);
    assert o.events == [] && e.events + [] == e.events;
    assert Fresh(true).raw + [c] == [c];
    if e.state == Fresh(true) {
      assert Faithful(true, o.state);
    } else {
      assert o.state.raw == s.raw + [c];
    }
  }

  lemma StepUnlimited(max: int, s: State, c: char)
    ensures Step(max, s, c).state.Live? ==> Step(max, s, c) == Step(0, s, c)
    ensures Step(max, s, c).state.Failed? ==>
      Step(max, s, c).events == if s.Live? && s.cr && c != '\n' then EndLine(s).events else []
  {
  }

  lemma StepFaithful(max: int, started: bool, s: State, c: char)
    requires Faithful(started, s)
    ensures var o := Step(max, s, c);
      && |o.events| <= 1 && (o.events != [] ==> Closes(started, o.events[0]))
      && (o.state.Failed? || Faithful(true, o.state) || (o.events == [] && Faithful(started, o.state)))
  {
    StepUnlimited(max, s, c);
    if !s.cr {
      PushFaithful(started, s, c);
      FreshFaithful();
    } else if c == '\n' {
      CrlfFaithful(started, s);
      FreshFaithful();
    } else {
      CrFaithful(started, s, c);
    }
  }

  lemma FreshFaithful()
    ensures Faithful(true, Fresh(true)) && Faithful(false, Fresh(false))
  {
  }

  lemma {:induction false} FeedCloses(max: int, started: bool, s: State, b: Bytes, eof: bool)
    requires Faithful(started, s)
    ensures AllClose(started, Feed(max, s, b, eof).events)
    decreases |b|
  {
    if b == "" {
    } else {
      var o := Step(max, s, b[0]);
      FeedStep(max, s, b, eof);
      StepFaithful(max, started, s, b[0]);
      if o.state.Failed? {
        FeedFailed(max, b[1..], eof);
      } else if Faithful(true, o.state) {
        FeedCloses(max, true, o.state, b[1..], eof);
      } else {
        FeedCloses(max, started, o.state, b[1..], eof);
      }
    }
  }

  // --------------------------------------------------------------------- reading back ----

  /** After a frame the next one is read as if the machine had just been reset. */
  lemma FeedFrame(started: bool, e: Event, rest: Bytes)
    requires Closes(started, e)
    requires rest != "" ==> rest[0] != '\n'
    ensures Feed(0, Fresh(started), e.raw + rest, true) == After([e], Feed(0, Fresh(true), rest, true))
  {
    var r := Run(0, Fresh(started), e.raw);
    FeedSplit(0, Fresh(started), e.raw, rest, true);
    if r != Out(Fresh(true), [e]) {
      FeedClosed(0, r.state, rest, true);
      AfterAfter([], [e], Feed(0, Fresh(true), rest, true));
    }
  }

  lemma {:induction false} FeedFrames(events: seq<Event>)
    requires AllClose(true, events)
    ensures Feed(0, Fresh(true), Concat(Raws(events)), true).events == events
    ensures Concat(Raws(events)) != "" ==> Concat(Raws(events))[0] != '\n'
  {
    if events != [] {
      var rest := events[1..];
      FeedFrames(rest);
      RawsCons(events);
      FeedFrame(true, events[0], Concat(Raws(rest)));
      assert [events[0]] + rest == events;
    }
  }

  lemma RawsCons(es: seq<Event>)
    requires es != []
    ensures Concat(Raws(es)) == es[0].raw + Concat(Raws(es[1..]))
  {
    assert Raws(es)[1..] == Raws(es[1..]);
  }

  /** Two machines that differ only in what the first line of the frame meant to them. */
  predicate InStep(s: State, t: State) {
    && s.Live? && t.Live? && s.started && s.cr == t.cr && s.line == t.line
    && (if t.started then s.raw == "" ==> t.raw == "" else t == s.(started := false))
    && (s == Fresh(true) && t.started ==> t == Fresh(true))
  }

  lemma StepInStep(s: State, t: State, c: char)
    requires InStep(s, t)
    requires !t.started ==> s.cur == NO_RECORD
    ensures InStep(Step(0, s, c).state, Step(0, t, c).state)
    ensures !Step(0, t, c).state.started ==>
      !t.started && Step(0, t, c).state.raw == t.raw + [c] && Step(0, s, c).state.cur == NO_RECORD
  {
  }

  lemma {:induction false} RunInStep(s: State, t: State, b: Bytes)
    requires InStep(s, t)
    requires !t.started ==> s.cur == NO_RECORD
    ensures InStep(Run(0, s, b).state, Run(0, t, b).state)
    ensures !Run(0, t, b).state.started ==> !t.started && Run(0, t, b).state.raw == t.raw + b
    decreases |b|
  {
    if b == "" {
      assert t.raw + b == t.raw;
    } else {
      StepInStep(s, t, b[0]);
      RunInStep(Step(0, s, b[0]).state, Step(0, t, b[0]).state, b[1..]);
      assert t.raw + [b[0]] + b[1..] == t.raw + b;
    }
  }

  /** Whatever the first frame turns into when it is re-read at the start of a stream, the reader
      is back at a frame boundary after it. */
  lemma FeedFirstFrame(e: Event, rest: Bytes)
    requires Closes(true, e)
    requires rest != "" ==> rest[0] != '\n'
    ensures Feed(0, Fresh(false), e.raw + rest, true) == After(Parse(e.raw), Feed(0, Fresh(true), rest, true))
  {
    var r := Run(0, Fresh(true), e.raw);
    var q := Run(0, Fresh(false), e.raw);
    RunInStep(Fresh(true), Fresh(false), e.raw);
    FeedSplit(0, Fresh(false), e.raw, rest, true);
    assert e.raw + "" == e.raw;
    assert Fresh(false).raw + e.raw == e.raw;
    if r == Out(Fresh(true), [e]) {
      assert q.state == Fresh(true);
      assert Parse(e.raw) == q.events + [];
    } else {
      assert EndLine(q.state).state == Fresh(true);
      FeedClosed(0, q.state, rest, true);
      AfterAfter(q.events, EndLine(q.state).events, Feed(0, Fresh(true), rest, true));
    }
  }

  /** What the bytes of a frame must be for it to read alike at the start of a stream, where a mark is
      dropped: no mark, or one followed on its line by text that, with the lines after it, gives the
      record's own name and data. */
  predicate ReadsAlike(e: Event) {
    BOM <= e.raw ==>
      && Marked(e.raw)
      && var cur := Fold(NO_RECORD, Unmarked(e.raw));
         cur.has && cur.name == e.name && cur.data == e.data
  }

  /** The first record reads alike at the start of a stream of its own. */
  predicate FirstSurvives(events: seq<Event>) {
    events != [] ==> ReadsAlike(events[0])
  }

  lemma SurvivesIff(first: Event, rest: seq<Event>, parsed: seq<Event>)
    ensures parsed + rest == [first] + rest <==> parsed == [first]
  {
    if parsed + rest == [first] + rest {
      assert |parsed| == 1;
      assert parsed[0] == (parsed + rest)[0];
    }
  }

  lemma ParseClosed(e: Event)
    requires Closes(false, e)
    ensures Parse(e.raw) == [e]
  {
    FeedFrame(false, e, "");
    assert e.raw + "" == e.raw;
    assert Feed(0, Fresh(true), "", true).events == [];
  }

  /** The first record, then records that each close on their own: only the first can change. */
  lemma ParseFirst(e: Event, rest: seq<Event>)
    requires AllClose(true, rest) && (Closes(true, e) || Closes(false, e))
    ensures Parse(e.raw + Concat(Raws(rest))) == Parse(e.raw) + rest
  {
    FeedFrames(rest);
    var more := Concat(Raws(rest));
    if Closes(true, e) {
      FeedFirstFrame(e, more);
    } else {
      FeedFrame(false, e, more);
      ParseClosed(e);
    }
  }

  /** Re-reading emitted records re-reads the first one alone and keeps all others. */
  lemma OnlyFirstChanges(max: int, b: Bytes, eof: bool, events: seq<Event>)
    requires events != [] && events <= Feed(max, Fresh(false), b, eof).events
    ensures Parse(Concat(Raws(events))) == Parse(events[0].raw) + events[1..]
  {
    FreshFaithful();
    FeedCloses(max, false, Fresh(false), b, eof);
    assert Raws(events)[1..] == Raws(events[1..]);
    assert AllClose(true, events[1..]);
    ParseFirst(events[0], events[1..]);
  }

  // ------------------------------------------------------------ the first record, by its bytes ----

  /** Reading a whole buffer, line by line. */
  lemma ParseIsLines(b: Bytes)
    ensures Parse(b) == SseDocument.Lines(0, b, "", false, NO_RECORD).events
    ensures Feed(0, Fresh(true), b, true).events == SseDocument.Lines(0, b, "", true, NO_RECORD).events
  {
    SseDocument.FeedIsLines(0, Fresh(false), b);
    SseDocument.FeedIsLines(0, Fresh(true), b);
  }

  lemma ClosedFeed(started: bool, e: Event)
    requires Closes(started, e)
    ensures Feed(0, Fresh(started), e.raw, true).events == [e]
  {
    FeedFrame(started, e, "");
    assert e.raw + "" == e.raw;
    assert Feed(0, Fresh(true), "", true).events == [];
  }

  /** An emitted record has the bytes of one frame; inside of a stream these are read to it. */
  lemma ClosedFrame(e: Event)
    requires Closes(true, e) || Closes(false, e)
    ensures OneFrame(e.raw)
    ensures Closes(true, e) ==> Record(Fold(NO_RECORD, TextLines(e.raw)), e.raw) == [e]
  {
    ParseIsLines(e.raw);
    if Closes(true, e) {
      ClosedFeed(true, e);
      WholeIsFrame(e.raw, "", NO_RECORD, e);
      ReadInside(e.raw);
    } else {
      ClosedFeed(false, e);
      OpeningIsFrame(e.raw, e);
    }
  }

  /** A record that was emitted inside of its stream is named by the last event line of its frame, and its data
      are the data lines, put together with line feeds. */
  lemma RecordSays(e: Event)
    requires Closes(true, e)
    ensures var names := Values(TextLines(e.raw), "event");
      && e.name == (if names == [] then "" else names[|names| - 1])
      && e.data == Joined(Values(TextLines(e.raw), "data"))
  {
    ClosedFrame(e);
    FoldSays(TextLines(e.raw));
    assert e in Record(Fold(NO_RECORD, TextLines(e.raw)), e.raw);
  }

  /** Re-reading one emitted record at the start of a stream. */
  lemma RereadOne(e: Event)
    requires Closes(true, e) || Closes(false, e)
    ensures !(BOM <= e.raw) ==> Parse(e.raw) == [e]
    ensures BOM <= e.raw && Marked(e.raw) ==> Parse(e.raw) == Record(Fold(NO_RECORD, Unmarked(e.raw)), e.raw)
    ensures BOM <= e.raw && !Marked(e.raw) ==> forall x | x in Parse(e.raw) :: |x.raw| < |e.raw|
  {
    ClosedFrame(e);
    ParseIsLines(e.raw);
    if BOM <= e.raw && Marked(e.raw) {
      RereadMarked(e.raw);
    } else if BOM <= e.raw {
      RereadBare(e.raw);
    } else if Closes(true, e) {
      ParseNoBom(e.raw);
      ClosedFeed(true, e);
    } else {
      ClosedFeed(false, e);
    }
  }

  lemma AlikeIff(e: Event)
    requires Closes(true, e) || Closes(false, e)
    ensures Parse(e.raw) == [e] <==> ReadsAlike(e)
  {
    RereadOne(e);
    if Parse(e.raw) == [e] {
      assert e in Parse(e.raw);
    }
  }

  /** A record that was read at the start of its stream, mark or not, reads alike. */
  lemma OpeningSurvives(e: Event)
    requires Closes(false, e)
    ensures ReadsAlike(e)
  {
    ParseClosed(e);
    AlikeIff(e);
  }

  /** A record that was read inside of its stream, after frames that were dropped, reads alike exactly
      when it has no mark, or a harmless one. */
  lemma GuardDecides(e: Event)
    requires Closes(true, e)
    ensures ReadsAlike(e) <==> (BOM <= e.raw ==> MarkIsHarmless(e.raw))
  {
    ClosedFrame(e);
    if Marked(e.raw) {
      HarmlessIff(e.raw);
    }
  }

  // ------------------------------------------------------------------ reading inside ----

  /** Inside of a stream the frame reads as one record with all of its bytes. */
  predicate Single(f: Bytes) {
    var evs := Feed(0, Fresh(true), f, true).events;
    |evs| == 1 && evs[0].raw == f
  }

  function Own(f: Bytes): (e: Event)
    requires Single(f)
    ensures e.raw == f
  {
    Feed(0, Fresh(true), f, true).events[0]
  }

  function Owns(frames: seq<Bytes>): (es: seq<Event>)
    requires forall k | 0 <= k < |frames| :: Single(frames[k])
    ensures |es| == |frames| && Raws(es) == frames
  {
    seq(|frames|, i requires 0 <= i < |frames| => Own(frames[i]))
  }

  lemma SingleCloses(f: Bytes)
    requires Single(f)
    ensures Closes(true, Own(f))
  {
    FreshFaithful();
    FeedCloses(0, true, Fresh(true), f, true);
  }

  /** What the bytes of a record must be for it to read alike inside of a stream, where a mark is part of
      its line. */
  predicate ReadsInside(e: Event) {
    BOM <= e.raw ==>
      var cur := Fold(NO_RECORD, TextLines(e.raw));
      cur.has && cur.name == e.name && cur.data == e.data
  }

  /** An emitted record reads inside of a stream as one record with the same bytes, if not always alike. */
  lemma InsideSingle(e: Event)
    requires Closes(true, e) || Closes(false, e)
    ensures Single(e.raw) && (Own(e.raw) == e <==> ReadsInside(e))
  {
    ClosedFrame(e);
    ParseIsLines(e.raw);
    ReadInside(e.raw);
    if Closes(true, e) {
      ClosedFeed(true, e);
    } else {
      ClosedFeed(false, e);
      if BOM <= e.raw {
        OpeningMarked(e);
        HarmlessIff(e.raw);
      } else {
        ParseNoBom(e.raw);
      }
    }
  }

  lemma OpeningMarked(e: Event)
    requires Closes(false, e) && BOM <= e.raw
    ensures Marked(e.raw)
  {
    RereadOne(e);
    ParseClosed(e);
    assert e in Parse(e.raw);
  }

  /** A record that was read at the start of its stream reads alike inside of one exactly when it has no
      mark, or a harmless one. */
  lemma GuardInside(e: Event)
    requires Closes(false, e)
    ensures ReadsInside(e) <==> (BOM <= e.raw ==> MarkIsHarmless(e.raw))
  {
    if BOM <= e.raw {
      OpeningMarked(e);
      RereadOne(e);
      ParseClosed(e);
      HarmlessIff(e.raw);
    }
  }

  /** Re-reading the raw bytes of the emitted records gives the same records, byte for byte, if and
      only if the first record reads alike at the start of a stream; every later one always survives. */
  lemma RoundTrip(max: int, b: Bytes, eof: bool, k: nat)
    requires k <= |Feed(max, Fresh(false), b, eof).events|
    ensures var events := Feed(max, Fresh(false), b, eof).events[..k];
      Parse(Concat(Raws(events))) == events <==> FirstSurvives(events)
  {
    var events := Feed(max, Fresh(false), b, eof).events[..k];
    if events != [] {
      OnlyFirstChanges(max, b, eof, events);
      FirstCloses(max, b, eof, events);
      AlikeIff(events[0]);
      assert events == [events[0]] + events[1..];
      SurvivesIff(events[0], events[1..], Parse(events[0].raw));
    }
  }

  lemma FirstCloses(max: int, b: Bytes, eof: bool, events: seq<Event>)
    requires events != [] && events <= Feed(max, Fresh(false), b, eof).events
    ensures Closes(true, events[0]) || Closes(false, events[0])
  {
    FreshFaithful();
    FeedCloses(max, false, Fresh(false), b, eof);
  }

  // ------------------------------------------------------- the exception, made checkable ----

  /** Dropping `started` does not matter to a first line that does not begin with the mark. */
  lemma {:induction false} RunNoBom(s: State, b: Bytes)
    requires s.Live? && s.started && !(BOM <= if s.cr then s.line else s.line + b)
    ensures var t := Run(0, s.(started := false), b);
      && t.events == Run(0, s, b).events
      && (t.state == Run(0, s, b).state || (t.state.Live? && !(BOM <= t.state.line) && Run(0, s, b).state == t.state.(started := true)))
    decreases |b|
  {
    if b == "" {
      assert s.line + b == s.line;
    } else {
      assert s.line <= s.line + b;
      var o := Step(0, s, b[0]);
      var q := Step(0, s.(started := false), b[0]);
      if q != o {
        assert !s.cr && b[0] != '\n';
        assert s.line + [b[0]] + b[1..] == s.line + b;
        RunNoBom(o.state, b[1..]);
      }
    }
  }

  lemma ParseNoBom(b: Bytes)
    requires !(BOM <= b)
    ensures Parse(b) == Feed(0, Fresh(true), b, true).events
  {
    assert Fresh(true).line + b == b;
    RunNoBom(Fresh(true), b);
  }

  /** The stream ":\n\n" + BOM + "\n\n": the comment frame is dropped, the second frame is emitted
      as an empty record, and re-reading that record alone yields nothing. */
  lemma BomAfterDroppedFrame()
    ensures var b := ":\n\n" + BOM + "\n\n";
      var events := Feed(0, Fresh(false), b, true).events;
      && events == [Event("", "", BOM + "\n\n")]
      && Parse(Concat(Raws(events))) == []
  {
    var b := ":\n\n" + BOM + "\n\n";
    var frame := BOM + "\n\n";
    var head := ":\n\n";
    assert b == head + frame;
    RunThree(Fresh(false), head);
    FeedSplit(0, Fresh(false), head, frame, true);
    assert Run(0, Fresh(false), head) == Out(Fresh(true), []);
    BomLine();
    MarkFrame(true, BOM);
    MarkFrame(false, BOM);
    AfterAfter([], [], Feed(0, Fresh(true), frame, true));
    ConcatOne(frame);
    assert Raws([Event("", "", frame)]) == [frame];
  }

  lemma RunThree(s: State, b: Bytes)
    requires |b| == 3
    ensures var x := Step(0, s, b[0]);
      var y := Step(0, x.state, b[1]);
      var z := Step(0, y.state, b[2]);
      Run(0, s, b) == Out(z.state, x.events + y.events + z.events)
  {
    var x := Step(0, s, b[0]);
    var y := Step(0, x.state, b[1]);
    RunOne(0, s, b[0]);
    RunOne(0, x.state, b[1]);
    RunOne(0, y.state, b[2]);
    RunSplit(0, s, [b[0]], b[1..]);
    RunSplit(0, x.state, [b[1]], [b[2]]);
    assert b == [b[0]] + b[1..] && b[1..] == [b[1]] + [b[2]];
    AfterAfter(x.events, y.events, Step(0, y.state, b[2]));
  }

  /** The mark alone on a line: nothing at the start of a stream, an unknown field elsewhere. */
  lemma BomLine()
    ensures Plain(BOM) && StripBom(BOM) == "" && Field(NO_RECORD, BOM) == NO_RECORD.(has := true)
  {
    assert BOM[0] != ':' && BOM[1] != ':' && BOM[2] != ':';
    var i := IndexOf(BOM, ':');
    assert i == 3 && BOM[..3] == BOM && BOM[3..] == "";
  }

  /** A line that ends with LF, followed by a blank line. */
  lemma FeedLineThenBlank(s: State)
    requires s.Live? && !s.cr
    ensures var t := EndLine(s.(raw := s.raw + ['\n']));
      var u := EndLine(t.state.(raw := t.state.raw + ['\n']));
      Feed(0, s, "\n\n", true).events == t.events + u.events
  {
    var t := Step(0, s, '\n');
    assert "\n\n" == ['\n'] + ['\n'];
    FeedSplit(0, s, ['\n'], ['\n'], true);
    RunOne(0, s, '\n');
    RunOne(0, t.state, '\n');
  }

  lemma MarkFrame(started: bool, mark: Bytes)
    requires mark != "" && Plain(mark) && StripBom(mark) == "" && Field(NO_RECORD, mark) == NO_RECORD.(has := true)
    ensures Feed(0, Fresh(started), mark + "\n\n", true).events == if started then [Event("", "", mark + "\n\n")] else []
  {
    var s := Live(mark, mark, false, started, NO_RECORD);
    assert "" + mark == mark;
    RunPlain(0, Fresh(started), mark);
    FeedSplit(0, Fresh(started), mark, "\n\n", true);
    FeedLineThenBlank(s);
    Assoc(mark, ['\n'], ['\n']);
    assert ['\n'] + ['\n'] == "\n\n";
  }
}
