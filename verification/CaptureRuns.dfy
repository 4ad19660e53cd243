/** Complete runs of the capture engine, one per protocol: any schedule of reads, ticks and endings. */
module CaptureRuns {
  import opened Common
  import opened Failures
  import opened SseParser
  import opened SseRoundTrip
  import opened Capture
  import opened CaptureEngine
  import Spool
  import SseDocument
  import AnthropicWire
  import AnthropicCapture
  import V = AnthropicVerdicts
  import GeminiCapture
  import G = GeminiWire
  import ResponsesCapture
  import ResponsesMeaning
  import ToolJson

  /** Limits, timers, storage faults, and how much a replay may write before the client is gone. */
  datatype Limits = Limits(
    maxResponse: int, maxMem: int, ticking: bool, faults: nat -> Spool.Fault, room: Option<nat>)

  function MaxEvent(limits: Limits): int {
    if limits.maxResponse > 1 then limits.maxResponse else 1
  }

  /** What the events of a run are read from: the bytes of the turns that were taken. */
  ghost function Read(limits: Limits, turns: seq<Turn>, taken: nat): SseDocument.Parsed
    requires taken <= |turns|
  {
    SseDocument.Document(MaxEvent(limits), BytesRead(turns[..taken]))
  }

  /** The last turn taken was the end of the input, without a read fault and with the client there; no
      frame is unfinished, and these are all the events there are. */
  ghost predicate EndsCleanly(limits: Limits, turns: seq<Turn>, taken: nat, events: seq<Event>) {
    && 0 < taken <= |turns| && CleanEnd(turns[taken - 1])
    && AtFrameEnd(Feed(MaxEvent(limits), Fresh(false), BytesRead(turns[..taken]), true).state)
    && events == Read(limits, turns, taken).events
  }

  lemma FeedWithin(max: int, b: Bytes, eof: bool)
    ensures Feed(max, Fresh(false), b, eof).events <= SseDocument.Document(max, b).events
    ensures Feed(max, Fresh(false), b, true).events == SseDocument.Document(max, b).events
  {
    SseDocument.FeedIsLines(max, Fresh(false), b);
  }

  /** The input ended cleanly with the last turn taken, at the end of a frame, and is a complete response. */
  ghost predicate CompleteInput<W>(s: Setup<W>, l: Ledger<W>, turns: seq<Turn>, taken: nat)
    requires 0 < taken <= |turns|
  {
    && CleanEnd(turns[taken - 1]) && s.wire.completeOnEof(l.state)
    && AtFrameEnd(Feed(s.maxEvent, Fresh(false), BytesRead(turns[..taken]), true).state)
  }

  /** Every failure has its cause: the events and what was done with them; or, in a stream of which nothing
      was terminal, a frame over the limit, or the last turn. */
  ghost predicate HasCause<W>(s: Setup<W>, limits: Limits, l: Ledger<W>, res: Result, turns: seq<Turn>, taken: nat)
    requires 0 < taken <= |turns|
  {
    res.fail.Some? ==>
      || ByEvents(s, l, limits.maxResponse, res.fail.value)
      || (Running(s, l) && res == Result(l.committed, Some(RESPONSE_TOO_LARGE)) && Read(limits, turns, taken).failed)
      || (Running(s, l) && res.wrote == l.committed && CutOff(turns[taken - 1], CompleteInput(s, l, turns, taken), res.fail.value))
  }

  /** What is reported of a stream that was cut off: that its bytes stopped coming, that time is up, that the
      client left, that it ended too early, or how its reading broke. Only a client that left is final. */
  lemma CutOffSays(turn: Turn, complete: bool, f: Failure)
    requires CutOff(turn, complete, f)
    ensures f.transient <==> f.code != "client_gone"
    ensures match turn
      case IdleTick => f.code == "upstream_idle"
      case KeepTick => false
      case ContextDone(ctx) => f.code == if ctx.DeadlineExceeded? then "deadline" else "client_gone"
      case Read(_, err, ctx) =>
        match ctx
        case DeadlineExceeded => f.code == "deadline"
        case Canceled => f.code == "client_gone"
        case Alive => f.code == if err.Broke? then "stream_read_error" else "truncated_stream"
  {
  }

  /** A failure that the proxy finds by itself may clear on a new attempt, unless the response is too large or
      the client has left. */
  lemma OwnFindings<W>(s: Setup<W>, limits: Limits, l: Ledger<W>, res: Result, turns: seq<Turn>, taken: nat)
    requires 0 < taken <= |turns| && HasCause(s, limits, l, res, turns, taken)
    requires res.fail.Some? && !EventFailed(s, l, res.fail.value)
    ensures var f := res.fail.value;
      && !f.delivered && (f.transient <==> f.code != "response_too_large" && f.code != "client_gone")
      && (f.code == "client_gone" ==> var last := turns[taken - 1]; (last.ContextDone? || last.Read?) && !last.ctx.DeadlineExceeded?)
  {
  }

  lemma FailedRead(max: int, fed: Bytes, eof: bool)
    requires Feed(max, Fresh(false), fed, eof).state.Failed?
    ensures SseDocument.Document(max, fed).failed
  {
    SseDocument.FeedIsLines(max, Fresh(false), fed);
  }

  /** One capture, from its first turn to its last, and the record it leaves behind. */
  method Run<W(!new)>(s: Setup<W>, limits: Limits, turns: seq<Turn>)
    returns (res: Option<Result>, sent: Bytes, live: bool, refusal: Option<Bytes>, ghost l: Ledger<W>, ghost taken: nat)
    requires s.maxEvent == MaxEvent(limits)
    ensures sent == Sent(l.trace) && live == l.committed && taken <= |turns|
    ensures res.None? ==> taken == |turns| && Running(s, l) && l.buffered + l.live == EventsBy(s, turns, taken)
    ensures res.Some? ==> taken > 0 && HasCause(s, limits, l, res.value, turns, taken)
    ensures res.Some? && Deliverable(s, l, limits.maxResponse) ==> res.value == Result(true, None)
    ensures OnTime(s, l.committed, l.buffered, turns, taken, if res.Some? then taken - 1 else taken)
    ensures res.Some? ==>
      Ended(s, l, res.value, EndsCleanly(limits, turns, taken, l.buffered + l.live)) && RightVerdict(s, l, res.value) && NothingPast(s, l)
    ensures res.Some? ==> l.buffered + l.live <= Read(limits, turns, taken).events
    ensures res.Some? && !res.value.wrote ==> sent == "" && res.value.fail.Some?
    ensures refusal.Some? ==> sent == "" && refusal.value == Concat(Raws(l.buffered + l.live))
    ensures refusal.Some? ==> res.Some? && !res.value.wrote && l.live == [] && NothingPast(s, l)
    ensures refusal.Some? ==> Refuses(BufferedRun(s.wire, s.start, l.buffered).fail)
    ensures refusal.Some? <==> res.Some? && !live && Refuses(res.value.fail)
  {
    var engine := new Engine(s, limits.maxResponse, limits.maxMem);
    res, taken := engine.Capture(turns);
    sent, live := Sent(engine.trace), engine.committed;
    refusal := None;
    l := engine.View();
    if res.Some? {
      EngineEnds(engine, limits, turns, taken, res.value);
      if engine.heldRefusal {
        engine.HeldIsWhole(res.value);
        refusal := Some(engine.sp.Content());
      }
    }
  }

  /** What an engine that has ended says of the turns it took. */
  lemma EngineEnds<W(!new)>(engine: Engine<W>, limits: Limits, turns: seq<Turn>, taken: nat, res: Result)
    requires 0 < taken <= |turns| && engine.s.maxEvent == MaxEvent(limits) && engine.sp.maxResponse == limits.maxResponse
    requires engine.Concluded(res) && engine.Accounted(res, turns[taken - 1])
    requires engine.fed == BytesRead(turns[..taken]) && engine.ended == InputEnd(turns[taken - 1]) && engine.clean == CleanEnd(turns[taken - 1])
    ensures var l := engine.View();
      && Ended(engine.s, l, res, EndsCleanly(limits, turns, taken, l.buffered + l.live))
      && l.buffered + l.live <= Read(limits, turns, taken).events
      && HasCause(engine.s, limits, l, res, turns, taken)
      && (Deliverable(engine.s, l, limits.maxResponse) ==> res == Result(true, None))
    ensures Refuses(res.fail) && !engine.committed ==> engine.heldRefusal
  {
    var s, l := engine.s, engine.View();
    FeedWithin(s.maxEvent, engine.fed, engine.ended);
    EndedMore(s, l, res, engine.AtEof(), EndsCleanly(limits, turns, taken, l.buffered + l.live));
    if engine.parser.failed {
      FailedRead(s.maxEvent, engine.fed, engine.ended);
    }
    if Deliverable(s, l, limits.maxResponse) {
      Delivers(s, l, limits.maxResponse, res, engine.AtEof());
    }
    if Refuses(res.fail) && !engine.committed {
      engine.RefusalIsHeld(res);
    }
  }

  /** The client takes everything, storage works, and there is room for these events. */
  ghost predicate Roomy(limits: Limits, events: seq<Event>) {
    limits.room.None? && |Concat(Raws(events))| <= limits.maxResponse && forall k :: limits.faults(k).NoFault?
  }

  /** If the failure counts as delivered, the client has heard it from the upstream: the last thing it was
      sent is the frame of the event that failed. */
  predicate TellsOwn(res: Result, events: seq<Event>, sent: Bytes) {
    res.fail.Some? && res.fail.value.delivered ==> res.wrote && events != [] && EndsIn(sent, events[|events| - 1].raw)
  }

  lemma OwnOfRun<W(!new)>(s: Setup<W>, limits: Limits, l: Ledger<W>, res: Result, turns: seq<Turn>, taken: nat, atEof: bool)
    requires 0 < taken <= |turns| && HasCause(s, limits, l, res, turns, taken)
    requires DeliversOwn(s.wire) && Ended(s, l, res, atEof) && NothingPast(s, l)
    ensures TellsOwn(res, l.buffered + l.live, Sent(l.trace))
    ensures res.fail.Some? && res.fail.value.delivered ==> l.live != [] && LiveOf(s, l).fail == res.fail && Complete(s, Prefix(s, l))
  {
    if res.fail.Some? && res.fail.value.delivered {
      DeliveredIsOwn(s, l, limits.maxResponse, res.fail.value);
      assert (l.buffered + l.live)[|l.buffered + l.live| - 1] == l.live[|l.live| - 1];
    }
  }

  /** Any schedule against a Gemini upstream. Success means that the input ended cleanly and between
      frames, and that its events finish every requested candidate, or block the prompt before any. */
  method GeminiRun(env: G.Env, count: int, gated: bool, limits: Limits, turns: seq<Turn>)
    returns (res: Option<Result>, sent: Bytes, ghost events: seq<Event>, ghost taken: nat)
    requires count >= 1
    ensures taken <= |turns|
    ensures res.Some? ==> events <= Read(limits, turns, taken).events
    ensures res.Some? && !res.value.wrote ==> sent == "" && res.value.fail.Some?
    ensures res.Some? ==> sent <= Concat(Raws(events))
    ensures res == Some(Result(true, None)) ==> sent == Concat(Raws(events)) && EndsCleanly(limits, turns, taken, events)
    ensures res == Some(Result(true, None)) ==> G.Answered(env, count, events)
    ensures res.Some? && EndsCleanly(limits, turns, taken, events) && G.Answered(env, count, events) && Roomy(limits, events) ==>
      res == Some(Result(true, None))
    ensures res.Some? ==> OwnError(res.value, events, e => GeminiCapture.FinalError(env, e), sent)
  {
    var s := Setup(GeminiCapture.Protocol(env), G.Start(count), gated, false, limits.ticking, MaxEvent(limits), limits.faults, limits.room);
    var live, refusal;
    ghost var l;
    res, sent, live, refusal, l, taken := Run(s, limits, turns);
    events := l.buffered + l.live;
    if res.Some? {
      GeminiOutcome(env, count, s, l, res.value, EndsCleanly(limits, turns, taken, events));
      GeminiErrors(env, s, limits, l, res.value, turns, taken, EndsCleanly(limits, turns, taken, events));
      if EndsCleanly(limits, turns, taken, events) && G.Answered(env, count, events) && Roomy(limits, events) {
        GeminiDelivers(env, count, s, limits, l, res.value, turns, taken);
      }
    }
  }

  /** Only a final error of the upstream's own is ever told, as the last event and the last thing sent. */
  ghost predicate OwnError(res: Result, events: seq<Event>, final: Event -> bool, sent: Bytes) {
    TellsOwn(res, events, sent) && (res.fail.Some? && res.fail.value.delivered ==> final(events[|events| - 1]))
  }

  lemma GeminiErrors(env: G.Env, s: Setup<G.State>, limits: Limits, l: Ledger<G.State>, res: Result, turns: seq<Turn>, taken: nat, atEof: bool)
    requires 0 < taken <= |turns| && HasCause(s, limits, l, res, turns, taken)
    requires s.wire == GeminiCapture.Protocol(env) && Ended(s, l, res, atEof) && NothingPast(s, l)
    ensures OwnError(res, l.buffered + l.live, e => GeminiCapture.FinalError(env, e), Sent(l.trace))
  {
    GeminiCapture.OwnErrors(env);
    OwnOfRun(s, limits, l, res, turns, taken, atEof);
    if res.fail.Some? && res.fail.value.delivered {
      GeminiCapture.ErrorsTold(env, s, l);
    }
  }

  /** An answered request whose input ended cleanly is delivered, if there is room for it. */
  lemma GeminiDelivers(env: G.Env, count: int, s: Setup<G.State>, limits: Limits, l: Ledger<G.State>, res: Result, turns: seq<Turn>, taken: nat)
    requires 0 < taken <= |turns| && HasCause(s, limits, l, res, turns, taken)
    requires count >= 1 && s.wire == GeminiCapture.Protocol(env) && s.start == G.Start(count)
    requires s.room == limits.room && s.faults == limits.faults && s.maxEvent == MaxEvent(limits)
    requires EndsCleanly(limits, turns, taken, l.buffered + l.live) && Ended(s, l, res, true) && NothingPast(s, l)
    requires G.Answered(env, count, l.buffered + l.live) && Roomy(limits, l.buffered + l.live)
    ensures res == Result(true, None)
  {
    GeminiCapture.AnsweredIsComplete(env, count, s, l);
    SseDocument.FeedIsLines(s.maxEvent, Fresh(false), BytesRead(turns[..taken]));
    if !l.committed {
      assert l.buffered + l.live == l.buffered;
    }
  }

  lemma GeminiOutcome(env: G.Env, count: int, s: Setup<G.State>, l: Ledger<G.State>, res: Result, atEof: bool)
    requires count >= 1 && s.wire == GeminiCapture.Protocol(env) && s.start == G.Start(count)
    requires Ended(s, l, res, atEof) && NothingPast(s, l)
    ensures Sent(l.trace) <= Concat(Raws(l.buffered + l.live))
    ensures res == Result(true, None) ==>
      Sent(l.trace) == Concat(Raws(l.buffered + l.live)) && atEof && G.Answered(env, count, l.buffered + l.live)
  {
    GeminiCapture.ByteExact(env, s, l, res, atEof);
    if res == Result(true, None) {
      GeminiCapture.SuccessIsComplete(env, count, s, l, atEof);
    }
  }

  /** Any schedule against an Anthropic upstream; `live` says that it was committed to live streaming. A
      capture that goes through the normalizer gives on success what one normalizer makes of the events,
      however the run was scheduled, and otherwise a prefix of it, an in-band error aside. Callers behind
      a stall watchdog have a gated commit and stream raw tool fragments after it: what they get then,
      as without coalescing, are the bytes of the events, all of them on success. A held refusal is a
      complete stream, as long as in-band errors are not classified under the refusal's own code. */
  method AnthropicRun(env: AnthropicWire.Env, limits: Limits, turns: seq<Turn>)
    returns (res: Option<Result>, sent: Bytes, refusal: Option<Bytes>, live: bool, ghost events: seq<Event>, ghost taken: nat)
    ensures taken <= |turns|
    ensures res.Some? ==> events <= Read(limits, turns, taken).events
    ensures res.Some? && !res.value.wrote ==> sent == "" && res.value.fail.Some? && !live
    ensures res.Some? ==> Received(env, res.value, live, events, sent)
    ensures refusal.Some? ==> sent == "" && refusal.value == Concat(Raws(events))
    ensures refusal.Some? && AnthropicCapture.ErrorsAreErrors(env) ==> RefusedWhole(env, events)
    ensures res.Some? && Roomy(limits, events) ==> AsDeclared(env, res.value, live, events)
    ensures res.Some? ==> OwnError(res.value, events, e => V.FinalError(env, e), sent)
  {
    var s := Setup(AnthropicWire.Protocol(env), AnthropicWire.START, env.streamToolDeltas, false, limits.ticking,
      MaxEvent(limits), limits.faults, limits.room);
    ghost var l;
    res, sent, live, refusal, l, taken := Run(s, limits, turns);
    events := l.buffered + l.live;
    if res.Some? {
      FeedWithin(s.maxEvent, BytesRead(turns[..taken]), true);
      AnthropicPromises(env, s, limits, l, res.value, turns, taken, EndsCleanly(limits, turns, taken, events), BytesRead(turns[..taken]));
    }
  }

  lemma AnthropicPromises(env: AnthropicWire.Env, s: Setup<AnthropicWire.State>, limits: Limits, l: Ledger<AnthropicWire.State>, res: Result,
    turns: seq<Turn>, taken: nat, atEof: bool, fed: Bytes)
    requires 0 < taken <= |turns| && HasCause(s, limits, l, res, turns, taken)
    requires s.wire == AnthropicWire.Protocol(env) && s.start == AnthropicWire.START && s.room == limits.room && s.faults == limits.faults
    requires Ended(s, l, res, atEof) && RightVerdict(s, l, res) && NothingPast(s, l)
    requires l.buffered + l.live <= Feed(s.maxEvent, Fresh(false), fed, true).events
    ensures var events := l.buffered + l.live;
      && Received(env, res, l.committed, events, Sent(l.trace))
      && (Roomy(limits, events) ==> AsDeclared(env, res, l.committed, events))
      && OwnError(res, events, e => V.FinalError(env, e), Sent(l.trace))
      && (!l.committed && Refuses(BufferedRun(s.wire, s.start, l.buffered).fail) && AnthropicCapture.ErrorsAreErrors(env) ==>
            RefusedWhole(env, events))
  {
    AnthropicOutcome(env, s, l, res, atEof, fed, true);
    AnthropicErrors(env, s, limits, l, res, turns, taken, atEof);
    if Roomy(limits, l.buffered + l.live) {
      AnthropicDeclared(env, s, limits, l, res, turns, taken, atEof, fed, true);
    }
    if !l.committed {
      V.OnlyWholeIsJudged(env, l.buffered);
      assert l.buffered + l.live == l.buffered;
    }
  }

  /** A whole message whose last stop reason is a refusal, where refusals are intercepted. */
  ghost predicate RefusedWhole(env: AnthropicWire.Env, events: seq<Event>) {
    V.Whole(env, events) && env.interceptRefusal && V.DeclaresRefusal(env, events)
  }

  /** With room for it, a whole message that was not committed comes to what it declares: kept as a refusal, or
      delivered if its replay is whole. Once committed, a sound stream is delivered up to its message_stop. */
  ghost predicate AsDeclared(env: AnthropicWire.Env, res: Result, live: bool, events: seq<Event>) {
    if live then
      V.Sound(env, events) && V.GetsAcross(env, events) && events != [] && events[|events| - 1].name == "message_stop"
      ==> res == Result(true, None)
    else
      V.Whole(env, events) ==>
        if env.interceptRefusal && V.DeclaresRefusal(env, events) then res == Result(false, Some(REFUSAL_FALLBACK))
        else V.ReplaysWhole(env, events) ==> res == Result(true, None)
  }

  lemma AnthropicErrors(env: AnthropicWire.Env, s: Setup<AnthropicWire.State>, limits: Limits, l: Ledger<AnthropicWire.State>, res: Result,
    turns: seq<Turn>, taken: nat, atEof: bool)
    requires 0 < taken <= |turns| && HasCause(s, limits, l, res, turns, taken)
    requires s.wire == AnthropicWire.Protocol(env) && Ended(s, l, res, atEof) && NothingPast(s, l)
    ensures OwnError(res, l.buffered + l.live, e => V.FinalError(env, e), Sent(l.trace))
  {
    V.OwnErrors(env);
    OwnOfRun(s, limits, l, res, turns, taken, atEof);
    if res.fail.Some? && res.fail.value.delivered {
      V.ErrorsTold(env, s, l);
    }
  }

  lemma AnthropicDeclared(env: AnthropicWire.Env, s: Setup<AnthropicWire.State>, limits: Limits, l: Ledger<AnthropicWire.State>, res: Result,
    turns: seq<Turn>, taken: nat, atEof: bool, fed: Bytes, eof: bool)
    requires 0 < taken <= |turns| && HasCause(s, limits, l, res, turns, taken)
    requires s.wire == AnthropicWire.Protocol(env) && s.start == AnthropicWire.START && s.room == limits.room && s.faults == limits.faults
    requires Ended(s, l, res, atEof) && RightVerdict(s, l, res) && NothingPast(s, l) && Roomy(limits, l.buffered + l.live)
    requires l.buffered + l.live <= Feed(s.maxEvent, Fresh(false), fed, eof).events
    ensures AsDeclared(env, res, l.committed, l.buffered + l.live)
  {
    var events := l.buffered + l.live;
    assert l.buffered <= events;
    if l.committed {
      if V.Sound(env, events) && V.GetsAcross(env, events) && events != [] && events[|events| - 1].name == "message_stop" {
        V.LiveIsDone(env, s, l, s.maxEvent, fed, eof);
        Delivers(s, l, limits.maxResponse, res, atEof);
      }
    } else if V.Whole(env, events) {
      assert events == l.buffered;
      V.WholeIsJudged(env, l.buffered);
      if !(env.interceptRefusal && V.DeclaresRefusal(env, events)) && V.ReplaysWhole(env, events) {
        V.ReplayIsWhole(env, BufferedRun(s.wire, s.start, l.buffered).state, l.buffered);
        Delivers(s, l, limits.maxResponse, res, atEof);
      }
    }
  }

  /** What the client of an Anthropic run has received. */
  ghost predicate Received(env: AnthropicWire.Env, res: Result, live: bool, events: seq<Event>, sent: Bytes) {
    && (res == Result(true, None) ==> Completed(env, live, events))
    && Bytewise(env, res, live, events, sent)
  }

  /** What was delivered as complete passed every check up to its message_stop; if it was buffered to the end,
      it is a whole message, and no intercepted refusal. */
  ghost predicate Completed(env: AnthropicWire.Env, live: bool, events: seq<Event>) {
    && events != [] && events[|events| - 1].name == "message_stop" && V.Sound(env, events)
    && (!live ==> V.Whole(env, events) && !(env.interceptRefusal && V.DeclaresRefusal(env, events)))
  }

  ghost predicate Bytewise(env: AnthropicWire.Env, res: Result, live: bool, events: seq<Event>, sent: Bytes) {
    && (AnthropicCapture.Normalizes(env, live, events) ==>
          AnthropicCapture.PrefixRendered(env, events, sent) && (res == Result(true, None) ==> Rendered(env, events, sent)))
    && (AnthropicCapture.PassesRaw(env, live, events) ==>
          sent <= Concat(Raws(events)) && (res == Result(true, None) ==> sent == Concat(Raws(events))))
  }

  lemma AnthropicCompleted(env: AnthropicWire.Env, s: Setup<AnthropicWire.State>, l: Ledger<AnthropicWire.State>, atEof: bool)
    requires s.wire == AnthropicWire.Protocol(env) && s.start == AnthropicWire.START
    requires Ended(s, l, Result(true, None), atEof) && NothingPast(s, l)
    ensures Completed(env, l.committed, l.buffered + l.live)
  {
    AnthropicCapture.SuccessIsComplete(env, s, l, atEof);
    V.SuccessIsSound(env, s, l, atEof);
    if !l.committed {
      assert l.buffered + l.live == l.buffered;
    }
  }

  lemma AnthropicBytes(env: AnthropicWire.Env, s: Setup<AnthropicWire.State>, l: Ledger<AnthropicWire.State>, res: Result, atEof: bool,
    fed: Bytes, eof: bool)
    requires s.wire == AnthropicWire.Protocol(env) && s.start == AnthropicWire.START
    requires Ended(s, l, res, atEof) && NothingPast(s, l)
    requires l.buffered + l.live <= Feed(s.maxEvent, Fresh(false), fed, eof).events
    ensures Bytewise(env, res, l.committed, l.buffered + l.live, Sent(l.trace))
  {
    var events := l.buffered + l.live;
    assert l.buffered <= events;
    if AnthropicCapture.Normalizes(env, l.committed, events) {
      AnthropicCapture.AlwaysPrefix(env, s, l, res, atEof, s.maxEvent, fed, eof);
      if res == Result(true, None) {
        AnthropicCapture.HandoffIndependence(env, s, l, atEof, s.maxEvent, fed, eof);
      }
    }
    if AnthropicCapture.PassesRaw(env, l.committed, events) {
      AnthropicCapture.OffIsByteExact(env, s, l, res, atEof, s.maxEvent, fed, eof);
    }
  }

  lemma AnthropicOutcome(env: AnthropicWire.Env, s: Setup<AnthropicWire.State>, l: Ledger<AnthropicWire.State>, res: Result, atEof: bool,
    fed: Bytes, eof: bool)
    requires s.wire == AnthropicWire.Protocol(env) && s.start == AnthropicWire.START
    requires Ended(s, l, res, atEof) && NothingPast(s, l)
    requires l.buffered + l.live <= Feed(s.maxEvent, Fresh(false), fed, eof).events
    ensures Received(env, res, l.committed, l.buffered + l.live, Sent(l.trace))
  {
    AnthropicBytes(env, s, l, res, atEof, fed, eof);
    if res == Result(true, None) {
      AnthropicCompleted(env, s, l, atEof);
    }
  }

  /** What a fresh normalizer makes of these events, all of which it accepts. */
  predicate Rendered(env: AnthropicWire.Env, events: seq<Event>, sent: Bytes) {
    var o := ToolJson.NRun(AnthropicWire.Norm(env), ToolJson.N_START, events);
    o.verdict.Accepted? && sent == Concat(o.frames)
  }

  /** A capture that was not committed ends with the first event that is an error or final, unwritten if that
      is an error of the upstream's own. */
  ghost predicate BufferedEnd(env: ResponsesCapture.Env, res: Result, events: seq<Event>) {
    forall k: nat | k < |events| && ResponsesCapture.Ends(env, events[k]) :: k == |events| - 1 && ResponsesCapture.Unwritten(env, events[k], res)
  }

  lemma ResponsesEnds(env: ResponsesCapture.Env, s: Setup<ResponsesCapture.Seen>, limits: Limits, l: Ledger<ResponsesCapture.Seen>, res: Result,
    turns: seq<Turn>, taken: nat, atEof: bool)
    requires 0 < taken <= |turns| && HasCause(s, limits, l, res, turns, taken)
    requires s.wire == ResponsesCapture.Protocol(env) && s.room == limits.room && s.faults == limits.faults
    requires Ended(s, l, res, atEof) && RightVerdict(s, l, res) && NothingPast(s, l)
    ensures !l.committed ==> BufferedEnd(env, res, l.buffered + l.live)
    ensures OwnError(res, l.buffered + l.live, e => ResponsesCapture.FinalError(env, e), Sent(l.trace))
    ensures var events := l.buffered + l.live;
      Roomy(limits, events) && events != [] && ResponsesCapture.Finishes(env, l.committed, events[|events| - 1]) ==> res == Result(true, None)
  {
    ResponsesCapture.OwnErrors(env);
    OwnOfRun(s, limits, l, res, turns, taken, atEof);
    if res.fail.Some? && res.fail.value.delivered {
      ResponsesCapture.ErrorsTold(env, s, l);
    }
    ResponsesBuffered(env, s, l, res, atEof);
    ResponsesDelivers(env, s, limits, l, res, turns, taken, atEof);
  }

  lemma ResponsesBuffered(env: ResponsesCapture.Env, s: Setup<ResponsesCapture.Seen>, l: Ledger<ResponsesCapture.Seen>, res: Result, atEof: bool)
    requires s.wire == ResponsesCapture.Protocol(env)
    requires Ended(s, l, res, atEof) && RightVerdict(s, l, res) && NothingPast(s, l)
    ensures !l.committed ==> BufferedEnd(env, res, l.buffered + l.live)
  {
    if !l.committed {
      assert l.buffered + l.live == l.buffered;
      forall k: nat | k < |l.buffered| && ResponsesCapture.Ends(env, l.buffered[k])
        ensures k == |l.buffered| - 1 && ResponsesCapture.Unwritten(env, l.buffered[k], res) {
        ResponsesCapture.BufferedEnds(env, s, l, res, atEof, k);
      }
    }
  }

  /** Without a tick of the timer, only model output commits a capture. */
  lemma OutputFirst(env: ResponsesCapture.Env, s: Setup<ResponsesCapture.Seen>, l: Ledger<ResponsesCapture.Seen>, turns: seq<Turn>, taken: nat)
    requires s.wire == ResponsesCapture.Protocol(env) && s.start == ResponsesCapture.Seen(false) && CommittedAt(s, l)
    requires 0 < taken <= |turns| && OnTime(s, true, l.buffered, turns, taken, taken - 1)
    ensures KeepTick !in turns[..taken] ==> s.earlyCommit && exists e | e in l.buffered + l.live :: env.kind(e).Output?
  {
    if KeepTick !in turns[..taken] {
      HoldsBack(s, l.buffered, turns, taken, taken - 1);
      var j: nat :| j < taken && FirstDue(s, turns, j) && l.buffered == EventsBy(s, turns, j + 1);
      assert turns[j] == turns[..taken][j];
      ResponsesCapture.BufferedGoesOn(env, s.start, l.buffered);
      var e :| e in l.buffered && env.kind(e).Output?;
      assert e in l.buffered + l.live;
    }
  }

  /** A finished response is delivered, if there is room for it. */
  lemma ResponsesDelivers(env: ResponsesCapture.Env, s: Setup<ResponsesCapture.Seen>, limits: Limits, l: Ledger<ResponsesCapture.Seen>, res: Result,
    turns: seq<Turn>, taken: nat, atEof: bool)
    requires 0 < taken <= |turns| && HasCause(s, limits, l, res, turns, taken)
    requires s.wire == ResponsesCapture.Protocol(env) && s.room == limits.room && s.faults == limits.faults
    requires Ended(s, l, res, atEof) && NothingPast(s, l)
    ensures var events := l.buffered + l.live;
      Roomy(limits, events) && events != [] && ResponsesCapture.Finishes(env, l.committed, events[|events| - 1]) ==> res == Result(true, None)
  {
    var events := l.buffered + l.live;
    if Roomy(limits, events) && events != [] && ResponsesCapture.Finishes(env, l.committed, events[|events| - 1]) {
      ResponsesCapture.FinishIsDone(env, s, l);
      if !l.committed {
        assert events == l.buffered;
      }
      Delivers(s, l, limits.maxResponse, res, atEof);
    }
  }

  /** Any schedule against a Responses upstream. */
  method ResponsesRun(env: ResponsesCapture.Env, earlyCommit: bool, limits: Limits, turns: seq<Turn>)
    returns (res: Option<Result>, sent: Bytes, live: bool, ghost events: seq<Event>, ghost taken: nat)
    requires ResponsesMeaning.EncoderFaithful(env.json)
    ensures taken <= |turns|
    ensures res.Some? ==> events <= Read(limits, turns, taken).events
    ensures res.Some? && !res.value.wrote ==> sent == "" && res.value.fail.Some?
    ensures res == Some(Result(true, None)) ==> ResponsesCapture.Means(env, sent, events)
    ensures res.Some? ==> ResponsesCapture.MeansUpTo(env, events, sent)
    ensures res == Some(Result(true, None)) ==> events != [] && ResponsesCapture.EndsStream(env, events[|events| - 1])
    ensures res.Some? && env.replayBytes <= 0 ==> sent <= Concat(Raws(events))
    ensures res == Some(Result(true, None)) && env.replayBytes <= 0 ==> sent == Concat(Raws(events))
    ensures res.Some? && !live ==> BufferedEnd(env, res.value, events)
    ensures res.Some? && Roomy(limits, events) && events != [] && ResponsesCapture.Finishes(env, live, events[|events| - 1]) ==>
      res == Some(Result(true, None))
    ensures res.Some? ==> OwnError(res.value, events, e => ResponsesCapture.FinalError(env, e), sent)
    ensures res.Some? && live && KeepTick !in turns[..taken] ==> earlyCommit && exists e | e in events :: env.kind(e).Output?
  {
    var s := Setup(ResponsesCapture.Protocol(env), ResponsesCapture.Seen(false), false, earlyCommit, limits.ticking,
      MaxEvent(limits), limits.faults, limits.room);
    var refusal;
    ghost var l;
    res, sent, live, refusal, l, taken := Run(s, limits, turns);
    events := l.buffered + l.live;
    ghost var atEof := EndsCleanly(limits, turns, taken, events);
    if res.Some? && live {
      OutputFirst(env, s, l, turns, taken);
    }
    if res.Some? {
      ResponsesEnds(env, s, limits, l, res.value, turns, taken, atEof);
    }
    if res.Some? && env.replayBytes <= 0 {
      ResponsesCapture.ByteExact(env, s, l, res.value, atEof);
    }
    if res.Some? {
      FeedWithin(s.maxEvent, BytesRead(turns[..taken]), true);
      ResponsesCapture.AlwaysMeansUpTo(env, s, l, res.value, atEof, s.maxEvent, BytesRead(turns[..taken]), true);
    }
    if res == Some(Result(true, None)) {
      ResponsesCapture.CaptureKeepsMeaning(env, s, l, atEof, s.maxEvent, BytesRead(turns[..taken]), true);
      ResponsesCapture.SuccessIsTerminal(env, s, l, atEof);
    }
  }
}
