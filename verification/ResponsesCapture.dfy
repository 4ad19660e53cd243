/**
 Whole captures of a Responses stream (responses.go, openaiWire): frames are forwarded verbatim after
 a commit, and replayed with adjacent text deltas joined before it, without changing what they mean.
 */
module ResponsesCapture {
  import opened Common
  import opened Failures
  import opened SseParser
  import opened SseRoundTrip
  import opened Capture
  import opened CaptureTransparency
  import opened CaptureBeats
  import SseFrame
  import opened ResponsesFrames
  import ResponsesCoalescer
  import ResponsesMeaning

  /** What the type of an event makes of it; an error frame comes classified, and `native` says that
      the client recovers from it by itself. */
  datatype Kind = ErrorFrame(fail: Failure, native: bool) | Final(valid: bool) | Output | Quiet

  /** The reading of event types, the JSON library, and the size up to which deltas are joined. */
  datatype Env = Env(kind: Event -> Kind, json: ResponsesCoalescer.Env, replayBytes: int)

  datatype Seen = Seen(content: bool)

  const KEEPALIVE_NAME: Bytes := "response.proxy_keepalive"
  const KEEPALIVE_DATA: Bytes := "{\"type\":\"response.proxy_keepalive\"}"
  const KEEPALIVE: Bytes := SseFrame.Frame(KEEPALIVE_NAME, KEEPALIVE_DATA)

  function OnBuffered(env: Env, w: Seen, ev: Event): BOut<Seen> {
    match env.kind(ev)
    case ErrorFrame(f, native) => if native then BOut(w, true, None) else BOut(w, false, Some(Untold(f)))
    case Final(valid) => if valid then BOut(w, true, None) else BOut(w, false, Some(INVALID_COMPLETED))
    case Output => BOut(Seen(true), false, None)
    case Quiet => BOut(w, false, None)
  }

  function OnLive(env: Env, w: Seen, ev: Event): LOut<Seen> {
    match env.kind(ev)
    case ErrorFrame(f, native) =>
      if f.transient && !native then LOut(w, [], false, Some(Untold(f)))
      else LOut(w, [ev.raw], true, Some(f.(delivered := true)))
    case Final(valid) => if valid then LOut(w, [ev.raw], true, None) else LOut(w, [ev.raw], false, Some(INVALID_COMPLETED))
    case _ => LOut(w, [ev.raw], false, None)
  }

  function Replayed(env: Env, w: Seen, b: Bytes): ROut<Seen> {
    ROut(w, [ResponsesCoalescer.Replay(env.json, env.replayBytes, b)], Whole)
  }

  function Protocol(env: Env): Wire<Seen> {
    Wire(
      (w: Seen, ev: Event) => OnBuffered(env, w, ev),
      (w: Seen, ev: Event) => OnLive(env, w, ev),
      (w: Seen, b: Bytes) => Replayed(env, w, b),
      (w: Seen, b: Bytes) => Replayed(env, w, b),
      (w: Seen) => false,
      (w: Seen) => w.content,
      KEEPALIVE)
  }

  lemma LiveIsRaw(env: Env)
    ensures RawLive(Protocol(env))
  {
    forall w: Seen, ev: Event ensures RawFrames(Protocol(env).live(w, ev), ev) {
      assert RawFrames(OnLive(env, w, ev), ev);
    }
  }

  /** With a joining size of zero every capture is byte-exact. */
  lemma ByteExact(env: Env, s: Setup<Seen>, l: Ledger<Seen>, res: Result, atEof: bool)
    requires s.wire == Protocol(env) && env.replayBytes <= 0 && Ended(s, l, res, atEof) && NothingPast(s, l)
    ensures res.wrote && res.fail.None? ==> Sent(l.trace) == Concat(Raws(l.buffered + l.live))
    ensures Sent(l.trace) <= Concat(Raws(l.buffered + l.live))
  {
    ConcatOne(Concat(Raws(l.buffered)));
    LiveIsRaw(env);
    Transparent(s, l, res, atEof);
  }

  /** A keepalive is a record of its own, of a type that clients skip. */
  function KeepaliveRecord(): Event {
    Event(KEEPALIVE_NAME, KEEPALIVE_DATA, KEEPALIVE)
  }

  lemma KeepaliveBeats()
    ensures Beats(KEEPALIVE, [KeepaliveRecord()])
  {
    FrameBeats(KEEPALIVE_NAME, KEEPALIVE_DATA);
  }

  /** With a joining size of zero the protocol passes on raw bytes. */
  lemma RawProtocol(env: Env, b: Bytes)
    requires env.replayBytes <= 0
    ensures RawLive(Protocol(env)) && RawPrefix(Protocol(env), b)
  {
    LiveIsRaw(env);
    ConcatOne(b);
  }

  /** With a joining size of zero a client reads the records it was sent and the keepalives between them,
      and nothing else, if and only if the first record reads alike where it stands. */
  lemma KeepalivesBetween(env: Env, s: Setup<Seen>, l: Ledger<Seen>, max: int, fed: Bytes, eof: bool)
    requires s.wire == Protocol(env) && env.replayBytes <= 0
    requires l.committed && LiveRecord(s, l) && Complete(s, Prefix(s, l)) && NothingPast(s, l)
    requires l.buffered + l.live <= Feed(max, Fresh(false), fed, eof).events
    ensures Told(s, l) == l.live || (LiveOf(s, l).fail.Some? && Told(s, l) == Init(l.live))
    ensures Parse(All(l.trace)) == Woven([KeepaliveRecord()], l.trace, l.buffered, Told(s, l))
      <==> OpensWell(l.trace, l.buffered, Told(s, l))
  {
    RawProtocol(env, Concat(Raws(l.buffered)));
    KeepaliveBeats();
    CaptureRead(s, l, [KeepaliveRecord()], max, fed, eof);
  }

  // -------------------------------------------------------------------- in-band endings ----

  /** An error frame, or an event that calls itself the last one. */
  predicate Ends(env: Env, ev: Event) {
    env.kind(ev).ErrorFrame? || env.kind(ev).Final?
  }

  lemma LastOrEarlier(evs: seq<Event>, env: Env)
    requires evs != []
    ensures (forall ev | ev in evs :: !Ends(env, ev)) <==> !Ends(env, evs[|evs| - 1]) && forall ev | ev in Init(evs) :: !Ends(env, ev)
    ensures (exists ev | ev in evs :: env.kind(ev).Output?)
      <==> env.kind(evs[|evs| - 1]).Output? || exists ev | ev in Init(evs) :: env.kind(ev).Output?
  {
    assert evs == Init(evs) + [evs[|evs| - 1]];
  }

  /** Before a commit the stream goes on until an error frame or a final event, and has something to forward
      once an output event came. */
  lemma {:induction false} BufferedGoesOn(env: Env, w: Seen, evs: seq<Event>)
    ensures var b := BufferedRun(Protocol(env), w, evs);
      && (!b.done && b.fail.None? <==> forall ev | ev in evs :: !Ends(env, ev))
      && (!b.done && b.fail.None? ==> (b.state.content <==> w.content || exists ev | ev in evs :: env.kind(ev).Output?))
    decreases |evs|
  {
    if evs != [] {
      BufferedGoesOn(env, w, Init(evs));
      LastOrEarlier(evs, env);
    }
  }

  /** So it does after a commit. */
  lemma {:induction false} LiveGoesOn(env: Env, w: Seen, evs: seq<Event>)
    ensures var o := LiveRun(Protocol(env), w, evs);
      !o.done && o.fail.None? <==> forall ev | ev in evs :: !Ends(env, ev)
    decreases |evs|
  {
    if evs != [] {
      LiveGoesOn(env, w, Init(evs));
      LastOrEarlier(evs, env);
    }
  }

  /** What a buffered capture owes to an event that ends it: an error that the client cannot recover from
      by itself, under its own failure, and a malformed final event, under one of its own, without a trace
      downstream. */
  predicate Unwritten(env: Env, ev: Event, res: Result) {
    match env.kind(ev)
    case ErrorFrame(f, native) => !native && !IsRefusal(f) ==> res == Result(false, Some(Untold(f)))
    case Final(valid) => !valid ==> res == Result(false, Some(INVALID_COMPLETED))
    case _ => true
  }

  lemma Earlier(evs: seq<Event>, k: nat)
    requires k < |evs|
    ensures k == |evs| - 1 || evs[k] in Init(evs)
  {
    assert k < |evs| - 1 ==> Init(evs)[k] == evs[k];
  }

  /** A capture that meets such an event before its commit ends at it. */
  lemma BufferedEnds(env: Env, s: Setup<Seen>, l: Ledger<Seen>, res: Result, atEof: bool, k: nat)
    requires s.wire == Protocol(env) && !l.committed && k < |l.buffered| && Ends(env, l.buffered[k])
    requires Ended(s, l, res, atEof) && RightVerdict(s, l, res) && NothingPast(s, l)
    ensures k == |l.buffered| - 1 && Unwritten(env, l.buffered[k], res) && (!res.wrote ==> Sent(l.trace) == "")
  {
    Earlier(l.buffered, k);
    BufferedGoesOn(env, s.start, Init(l.buffered));
  }

  /** The event finishes the response: a well-formed final event, or, before a commit, an error frame that the
      client recovers from by itself. */
  predicate Finishes(env: Env, live: bool, ev: Event) {
    env.kind(ev) == Final(true) || (!live && env.kind(ev).ErrorFrame? && env.kind(ev).native)
  }

  lemma FinishIsDone(env: Env, s: Setup<Seen>, l: Ledger<Seen>)
    requires s.wire == Protocol(env) && NothingPast(s, l) && (l.committed ==> CommittedAt(s, l)) && (!l.committed ==> l.live == [])
    requires s.room.None? && l.buffered + l.live != [] && Finishes(env, l.committed, (l.buffered + l.live)[|l.buffered + l.live| - 1])
    ensures if l.committed then Complete(s, Prefix(s, l)) && LiveOf(s, l).done && LiveOf(s, l).fail.None?
      else
        var b := BufferedRun(s.wire, s.start, l.buffered);
        l.buffered != [] && Complete(s, WholeReplay(s, l)) && b.done && b.fail.None?
  {
    if l.committed {
      BufferedGoesOn(env, s.start, l.buffered);
      NotAmong(env, l.buffered, l.live);
    } else {
      assert l.buffered + l.live == l.buffered;
    }
  }

  lemma NotAmong(env: Env, a: seq<Event>, b: seq<Event>)
    requires a + b != [] && Ends(env, (a + b)[|a + b| - 1]) && forall ev | ev in a :: !Ends(env, ev)
    ensures b != [] && (a + b)[|a + b| - 1] == b[|b| - 1]
  {
    assert b == [] ==> a + b == a;
  }

  /** An error frame that a new attempt cannot clear, or that the client recovers from by itself. */
  predicate FinalError(env: Env, ev: Event) {
    env.kind(ev).ErrorFrame? && (env.kind(ev).native || !env.kind(ev).fail.transient)
  }

  lemma LiveFault(env: Env, w: Seen, ev: Event)
    ensures var o := OnLive(env, w, ev);
      o.fail.Some? ==>
        && (o.fail.value.delivered <==> FinalError(env, ev))
        && o.frames == if FinalError(env, ev) || env.kind(ev).Final? then [ev.raw] else []
  {
  }

  /** After a commit, the event that fails a capture is delivered as its own frame if and only if it is such
      an error; a malformed final event is passed on all the same, and any other is not. */
  lemma ErrorsTold(env: Env, s: Setup<Seen>, l: Ledger<Seen>)
    requires s.wire == Protocol(env)
    requires l.committed && LiveRecord(s, l) && Complete(s, Prefix(s, l)) && NothingPast(s, l) && LiveOf(s, l).fail.Some?
    ensures l.live != []
    ensures var last := l.live[|l.live| - 1];
      && (LiveOf(s, l).fail.value.delivered <==> FinalError(env, last))
      && Sent(l.trace) == ReplayOf(env, l.buffered) + Concat(Raws(if FinalError(env, last) || env.kind(last).Final? then l.live else Init(l.live)))
  {
    assert LiveRun(s.wire, Prefix(s, l).state, []).fail.None?;
    var last := l.live[|l.live| - 1];
    LiveIsRaw(env);
    LastBytes(s, l);
    LiveFault(env, LiveRun(s.wire, Prefix(s, l).state, Init(l.live)).state, last);
    AndLast(l.live);
    ConcatOne(last.raw);
    EmptyPlus(Concat(Raws(Init(l.live))));
    ConcatOne(ReplayOf(env, l.buffered));
  }

  lemma OwnErrors(env: Env)
    ensures DeliversOwn(Protocol(env))
  {
    forall w: Seen, ev: Event ensures OwnFrame(Protocol(env).live(w, ev), ev) {
      LiveFault(env, w, ev);
    }
  }

  // ---------------------------------------------------- emitted records are whole frames ----

  /** The frame reader and the event parser, inside one and the same frame. */
  predicate InFrame(s: SseParser.State, c: CutState) {
    && s.Live? && c.frames == [] && c.cur == s.raw && c.pendingCr == s.cr
    && (s.cr ==> s.raw != "" && !c.lineHasData && c.frameDone == (s.line == ""))
    && (!s.cr ==> c.lineHasData == (s.line != "") && !c.frameDone)
    && (!s.started ==> s.cur == NO_RECORD)
  }

  /** After one more byte both are still inside of the frame, or it is complete. */
  predicate Onward(s: SseParser.State, x: char, o: Out, c: CutState)
    requires s.Live? && o.state.Live?
  {
    && (o.events == [] && o.state.raw == s.raw + [x] ==> InFrame(o.state, c))
    && (o.events != [] && o.events[0].raw == s.raw + [x] ==> CutEnd(c) == Cuts([s.raw + [x]], ""))
    && |o.events| <= 1
    && (o.events != [] ==> o.events[0].raw == s.raw || o.events[0].raw == s.raw + [x])
  }

  lemma PushInFrame(s: SseParser.State, c: CutState, x: char)
    requires InFrame(s, c) && !s.cr
    ensures Push(0, s, x).state.Live? && Onward(s, x, Push(0, s, x), CutByte(c, x))
  {
  }

  lemma LfInFrame(s: SseParser.State, c: CutState)
    requires InFrame(s, c) && s.cr
    ensures Step(0, s, '\n').state.Live? && Onward(s, '\n', Step(0, s, '\n'), CutStep(c, '\n'))
  {
  }

  /** A pending CR that stands alone ends its line; in the same frame only when the line has text. */
  lemma LoneCrInFrame(s: SseParser.State, c: CutState)
    requires InFrame(s, c) && s.cr
    ensures var o := EndLine(s);
      if s.line != "" && o.events == [] && o.state.raw == s.raw then
        !c.frameDone && o.state.Live? && InFrame(o.state, c.(pendingCr := false)) && !o.state.cr
      else o.state == Fresh(true) && |o.events| <= 1 && (o.events != [] ==> o.events[0].raw == s.raw)
  {
  }

  lemma CrInFrame(s: SseParser.State, c: CutState, x: char)
    requires InFrame(s, c) && s.cr && x != '\n'
    ensures Step(0, s, x).state.Live? && Onward(s, x, Step(0, s, x), CutStep(c, x))
  {
    var closed := EndLine(s);
    LoneCrInFrame(s, c);
    if closed.state == Fresh(true) {
      assert Push(0, closed.state, x).events == [];
    } else {
      PushInFrame(closed.state, c.(pendingCr := false), x);
    }
  }

  lemma StepInFrame(s: SseParser.State, c: CutState, x: char)
    requires InFrame(s, c)
    ensures Step(0, s, x).state.Live? && Onward(s, x, Step(0, s, x), CutStep(c, x))
  {
    if !s.cr {
      PushInFrame(s, c, x);
    } else if x == '\n' {
      LfInFrame(s, c);
    } else {
      CrInFrame(s, c, x);
    }
  }

  /** The rest of a frame that is emitted with all its bytes, read by both. */
  lemma {:induction false} FrameInBoth(s: SseParser.State, c: CutState, b: Bytes, e: Event)
    requires InFrame(s, c) && e.raw == s.raw + b
    requires Feed(0, s, b, true) == Out(Fresh(true), [e])
    ensures CutEnd(CutRun(c, b)) == Cuts([e.raw], "")
    decreases |b|
  {
    if b == "" {
      assert s.raw + b == s.raw;
    } else {
      var o, rest := Step(0, s, b[0]), b[1..];
      StepInFrame(s, c, b[0]);
      FeedStep(0, s, b, true);
      Shift(s.raw, b);
      ResponsesMeaning.StepRaw(s, b[0]);
      ResponsesMeaning.FeedRaw(o.state, rest);
      var after := Feed(0, o.state, rest, true);
      assert After(o.events, after) == Out(Fresh(true), [e]);
      if o.events != [] {
        assert (o.events + after.events)[0] == o.events[0];
        assert rest == "";
      } else {
        AfterAfter([], [], after);
        assert e in after.events;
        assert ResponsesMeaning.Within(e.raw, o.state.raw + rest);
        assert o.state.raw == s.raw + [b[0]];
        FrameInBoth(o.state, CutStep(c, b[0]), rest, e);
      }
    }
  }

  /** The raw bytes of an emitted record are one whole frame. */
  lemma ClosesWhole(started: bool, e: Event)
    requires Closes(started, e)
    ensures ResponsesFrames.Whole(e.raw)
  {
    var s := Fresh(started);
    assert s.raw + e.raw == e.raw;
    assert Feed(0, s, e.raw, true) == Out(Fresh(true), [e]);
    FrameInBoth(s, CUT_START, e.raw, e);
    CutMachine(e.raw);
  }

  lemma RawsSeparable(evs: seq<Event>)
    requires AllClose(false, evs)
    ensures Separable(Raws(evs), "")
  {
    forall f | f in Raws(evs) ensures ResponsesFrames.Whole(f) {
      var i :| 0 <= i < |evs| && Raws(evs)[i] == f;
      if Closes(true, evs[i]) {
        ClosesWhole(true, evs[i]);
      } else {
        ClosesWhole(false, evs[i]);
      }
    }
  }

  /** Cutting a stream of emitted records gives their raw bytes. */
  lemma CutRaws(max: int, fed: Bytes, eof: bool, evs: seq<Event>)
    requires evs <= Feed(max, Fresh(false), fed, eof).events
    ensures Cut(Concat(Raws(evs))) == Cuts(Raws(evs), "") && AllClose(false, evs)
  {
    FreshFaithful();
    FeedCloses(max, false, Fresh(false), fed, eof);
    RawsSeparable(evs);
    CutConcat(Raws(evs), "");
    assert Concat(Raws(evs)) + "" == Concat(Raws(evs));
  }

  // ------------------------------------------------------------ the meaning of a capture ----

  lemma {:induction false} MeaningJoin(read: Bytes -> ResponsesMeaning.Token, a: seq<Bytes>, b: seq<Bytes>, more: seq<Bytes>)
    requires ResponsesMeaning.Meaning(read, a) == ResponsesMeaning.Meaning(read, b)
    ensures ResponsesMeaning.Meaning(read, a + more) == ResponsesMeaning.Meaning(read, b + more)
    decreases |more|
  {
    if more == [] {
      assert a + more == a && b + more == b;
    } else {
      var init, f := more[..|more| - 1], more[|more| - 1];
      MeaningJoin(read, a, b, init);
      assert more == init + [f];
      Assoc(a, init, [f]);
      Assoc(b, init, [f]);
      ResponsesMeaning.MeaningPush(read, a + init, f);
      ResponsesMeaning.MeaningPush(read, b + init, f);
    }
  }

  /** Frames cut from complete frames and from what follows them. */
  lemma CutBoth(x: Bytes, y: Bytes)
    requires Cut(x).tail == "" && (y != "" ==> !IsBreak(y[0]))
    ensures Cut(x + y) == Before(Cut(x).frames, Cut(y))
  {
    if x == "" {
      assert x + y == y;
      assert Cut("").frames + Cut(y).frames == Cut(y).frames;
    } else {
      CutAppend(x, y, "");
    }
  }

  /** A replayed prefix followed by raw frames means what all the raw frames mean. */
  lemma PrefixMeaning(env: Env, max: int, fed: Bytes, eof: bool, a: seq<Event>, b: seq<Event>)
    requires ResponsesMeaning.EncoderFaithful(env.json)
    requires a + b <= Feed(max, Fresh(false), fed, eof).events
    ensures var out := ResponsesCoalescer.Replay(env.json, env.replayBytes, Concat(Raws(a))) + Concat(Raws(b));
      var read := ResponsesMeaning.Reader(env.json);
      ResponsesMeaning.Meaning(read, Cut(out).frames) == ResponsesMeaning.Meaning(read, Raws(a + b)) && Cut(out).tail == ""
  {
    var all := Feed(max, Fresh(false), fed, eof).events;
    var read := ResponsesMeaning.Reader(env.json);
    var x := ResponsesCoalescer.Replay(env.json, env.replayBytes, Concat(Raws(a)));
    assert a <= all;
    CutRaws(max, fed, eof, a);
    CutRaws(max, fed, eof, a + b);
    ResponsesMeaning.ReplayKeepsMeaning(env.json, env.replayBytes, Concat(Raws(a)));
    RawsSplit(a, b);
    TailFrames(a, b);
    CutBoth(x, Concat(Raws(b)));
    MeaningJoin(read, Cut(x).frames, Raws(a), Raws(b));
  }

  /** The later records of a stream, cut on their own. */
  lemma TailFrames(a: seq<Event>, b: seq<Event>)
    requires AllClose(false, a + b)
    ensures Cut(Concat(Raws(b))) == Cuts(Raws(b), "")
    ensures Concat(Raws(b)) != "" ==> !IsBreak(Concat(Raws(b))[0])
  {
    forall i | 0 <= i < |b| ensures Closes(true, b[i]) || Closes(false, b[i]) {
      assert b[i] == (a + b)[|a| + i];
    }
    forall i | 0 < i < |b| ensures Closes(true, b[i]) {
      assert b[i] == (a + b)[|a| + i];
    }
    RawsSeparable(b);
    CutConcat(Raws(b), "");
    assert Concat(Raws(b)) + "" == Concat(Raws(b));
    if b != [] {
      assert Concat(Raws(b))[0] == Raws(b)[0][0];
    }
  }

  /** Reading these bytes, frame by frame, gives what the events mean: the same text per route between
      the same barriers, the barriers verbatim; and no frame is unfinished. */
  ghost predicate Means(env: Env, sent: Bytes, evs: seq<Event>) {
    var read := ResponsesMeaning.Reader(env.json);
    && ResponsesMeaning.Meaning(read, Cut(sent).frames) == ResponsesMeaning.Meaning(read, Raws(evs))
    && Cut(sent).tail == ""
  }

  function ReplayOf(env: Env, evs: seq<Event>): Bytes {
    ResponsesCoalescer.Replay(env.json, env.replayBytes, Concat(Raws(evs)))
  }

  /** However a capture ends, the client has a prefix of a replay of the buffer that broke off; or what
      means the events that were looked at, or all of them but the last one, which failed. */
  lemma AlwaysKeepsMeaning(env: Env, s: Setup<Seen>, l: Ledger<Seen>, res: Result, atEof: bool, max: int, fed: Bytes, eof: bool)
    requires s.wire == Protocol(env) && ResponsesMeaning.EncoderFaithful(env.json)
    requires Ended(s, l, res, atEof) && NothingPast(s, l)
    requires l.buffered + l.live <= Feed(max, Fresh(false), fed, eof).events
    ensures if l.committed && Complete(s, Prefix(s, l)) then
        Means(env, Sent(l.trace), l.buffered + l.live)
        || (LiveOf(s, l).fail.Some? && l.live != [] && Means(env, Sent(l.trace), l.buffered + Init(l.live)))
      else
        && Sent(l.trace) <= ReplayOf(env, l.buffered)
        && (res == Result(true, None) ==> Means(env, Sent(l.trace), l.buffered + l.live))
  {
    if l.committed && Complete(s, Prefix(s, l)) {
      LiveMeaning(env, s, l, max, fed, eof);
    } else if l.committed {
      ConcatOne(ReplayOf(env, l.buffered));
      EmptyPlus(Written(s.room, ReplayOf(env, l.buffered)));
    } else if res.wrote {
      EmptyPlus(l.buffered);
      BufferedMeaning(env, s, l, res.fail, max, fed, eof);
    }
  }

  lemma BufferedMeaning(env: Env, s: Setup<Seen>, l: Ledger<Seen>, fail: Option<Failure>, max: int, fed: Bytes, eof: bool)
    requires s.wire == Protocol(env) && ResponsesMeaning.EncoderFaithful(env.json)
    requires BufferedRecord(s, l, fail) && l.buffered <= Feed(max, Fresh(false), fed, eof).events
    ensures Sent(l.trace) <= ReplayOf(env, l.buffered)
    ensures fail.None? ==> Means(env, Sent(l.trace), l.buffered)
  {
    ConcatOne(ReplayOf(env, l.buffered));
    TwoWrites(false, Written(s.room, ReplayOf(env, l.buffered)));
    ReplayMeans(env, l.buffered, max, fed, eof);
  }

  lemma ReplayMeans(env: Env, evs: seq<Event>, max: int, fed: Bytes, eof: bool)
    requires ResponsesMeaning.EncoderFaithful(env.json) && evs <= Feed(max, Fresh(false), fed, eof).events
    ensures Means(env, ReplayOf(env, evs), evs)
  {
    EmptyPlus(evs);
    PrefixMeaning(env, max, fed, eof, evs, []);
    assert Raws([]) == [];
    EmptyPlus(ReplayOf(env, evs));
  }

  lemma LiveMeaning(env: Env, s: Setup<Seen>, l: Ledger<Seen>, max: int, fed: Bytes, eof: bool)
    requires s.wire == Protocol(env) && ResponsesMeaning.EncoderFaithful(env.json)
    requires l.committed && LiveRecord(s, l) && Complete(s, Prefix(s, l)) && NothingPast(s, l)
    requires l.buffered + l.live <= Feed(max, Fresh(false), fed, eof).events
    ensures Means(env, Sent(l.trace), l.buffered + l.live)
      || (LiveOf(s, l).fail.Some? && l.live != [] && Means(env, Sent(l.trace), l.buffered + Init(l.live)))
  {
    ConcatOne(ReplayOf(env, l.buffered));
    LiveIsRaw(env);
    LiveBytes(s.wire, Prefix(s, l).state, l.live);
    PrefixMeaning(env, max, fed, eof, l.buffered, l.live);
    if LiveOf(s, l).fail.Some? {
      assert LiveRun(s.wire, Prefix(s, l).state, []).fail.None?;
      AllButLast(l.buffered, l.live, Feed(max, Fresh(false), fed, eof).events);
      PrefixMeaning(env, max, fed, eof, l.buffered, Init(l.live));
    }
  }

  lemma AllButLast(a: seq<Event>, b: seq<Event>, all: seq<Event>)
    requires a + b <= all && b != []
    ensures a + Init(b) <= all
  {
    assert a + b == (a + Init(b)) + [b[|b| - 1]];
  }

  /** Whatever the schedule and wherever the commit fell, a successful capture means to its reader what
      the events mean. */
  lemma CaptureKeepsMeaning(env: Env, s: Setup<Seen>, l: Ledger<Seen>, atEof: bool, max: int, fed: Bytes, eof: bool)
    requires s.wire == Protocol(env) && ResponsesMeaning.EncoderFaithful(env.json)
    requires Ended(s, l, Result(true, None), atEof) && NothingPast(s, l)
    requires l.buffered + l.live <= Feed(max, Fresh(false), fed, eof).events
    ensures Means(env, Sent(l.trace), l.buffered + l.live)
  {
    AlwaysKeepsMeaning(env, s, l, Result(true, None), atEof, max, fed, eof);
  }

  /** The bytes of a run that may have failed, over the events that were looked at. */
  ghost predicate MeansUpTo(env: Env, evs: seq<Event>, sent: Bytes) {
    || Means(env, sent, evs) || (evs != [] && Means(env, sent, Init(evs)))
    || exists k :: 0 <= k <= |evs| && sent <= ReplayOf(env, evs[..k])
  }

  lemma AlwaysMeansUpTo(env: Env, s: Setup<Seen>, l: Ledger<Seen>, res: Result, atEof: bool, max: int, fed: Bytes, eof: bool)
    requires s.wire == Protocol(env) && ResponsesMeaning.EncoderFaithful(env.json)
    requires Ended(s, l, res, atEof) && NothingPast(s, l)
    requires l.buffered + l.live <= Feed(max, Fresh(false), fed, eof).events
    ensures MeansUpTo(env, l.buffered + l.live, Sent(l.trace))
  {
    AlwaysKeepsMeaning(env, s, l, res, atEof, max, fed, eof);
    if !(l.committed && Complete(s, Prefix(s, l))) {
      ReplayUpTo(env, l.buffered, l.live, Sent(l.trace));
    } else if l.live != [] {
      InitUpTo(env, l.buffered, l.live, Sent(l.trace));
    }
  }

  lemma ReplayUpTo(env: Env, a: seq<Event>, b: seq<Event>, sent: Bytes)
    requires sent <= ReplayOf(env, a)
    ensures MeansUpTo(env, a + b, sent)
  {
    assert (a + b)[..|a|] == a;
  }

  lemma InitUpTo(env: Env, a: seq<Event>, b: seq<Event>, sent: Bytes)
    requires b != []
    ensures Means(env, sent, a + Init(b)) ==> MeansUpTo(env, a + b, sent)
  {
    assert Init(a + b) == a + Init(b);
  }

  lemma TerminalKinds(env: Env, w: Seen, ev: Event)
    ensures OnLive(env, w, ev).done && OnLive(env, w, ev).fail.None? ==> env.kind(ev) == Final(true)
    ensures OnBuffered(env, w, ev).done ==> env.kind(ev) == Final(true) || (env.kind(ev).ErrorFrame? && env.kind(ev).native)
  {
  }

  /** A well-formed terminal event, or an error frame that the client recovers from by itself. */
  predicate EndsStream(env: Env, ev: Event) {
    var k := env.kind(ev);
    k == Final(true) || (k.ErrorFrame? && k.native)
  }

  /** A capture succeeds only at a well-formed terminal event, or at an error frame that the client
      recovers from by itself, delivered in a buffered stream. */
  lemma SuccessIsTerminal(env: Env, s: Setup<Seen>, l: Ledger<Seen>, atEof: bool)
    requires s.wire == Protocol(env) && Ended(s, l, Result(true, None), atEof) && NothingPast(s, l)
    ensures l.buffered + l.live != []
    ensures var evs := l.buffered + l.live;
      var last := evs[|evs| - 1];
      EndsStream(env, last) && (l.committed ==> env.kind(last) == Final(true))
  {
    LastOfJoin(l.buffered, l.live);
    if l.committed {
      assert l.live != [];
      LastLive(s.wire, Prefix(s, l).state, l.live);
      TerminalKinds(env, LiveRun(s.wire, Prefix(s, l).state, Init(l.live)).state, l.live[|l.live| - 1]);
    } else {
      assert l.buffered != [];
      BufferedLast(s.wire, s.start, l.buffered);
      TerminalKinds(env, BufferedRun(s.wire, s.start, Init(l.buffered)).state, l.buffered[|l.buffered| - 1]);
    }
  }
}
