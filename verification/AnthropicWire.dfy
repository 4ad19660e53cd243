/**
 The Anthropic wire (wire.go, anthropicWire): validation before the commit, coalescing replay and
 live forwarding after it. The validators and the normalizer are shared by both sides of the commit.
 */
module AnthropicWire {
  import opened Common
  import opened Failures
  import opened SseParser
  import opened Capture
  import SseRoundTrip
  import StreamOrder
  import ToolJson
  import ToolJsonLockstep

  /** The configuration, the JSON library, and the reading of in-band errors and stop reasons. */
  datatype Env = Env(
    tool: ToolJson.Env, validate: bool, streamToolDeltas: bool, interceptRefusal: bool,
    classify: Bytes -> Failure, stopReason: Event -> Option<Bytes>)

  /** Coalescing needs the validated payloads. */
  function Norm(env: Env): ToolJson.Env {
    env.tool.(normalize := env.validate && env.tool.normalize)
  }

  datatype State = State(
    order: StreamOrder.Order, tool: ToolJson.VState, norm: ToolJson.NState, sawProgress: bool, stop: Bytes)

  const START := State(StreamOrder.O_START, ToolJson.V_START, ToolJson.N_START, false, "")

  /** The last stop reason an event declared. */
  function Scrape(env: Env, stop: Bytes, ev: Event): Bytes {
    if env.stopReason(ev).Some? then env.stopReason(ev).value else stop
  }

  function VerdictFailure(v: ToolJson.Verdict): Failure {
    if v.TooLarge? then RESPONSE_TOO_LARGE else MALFORMED
  }

  function Order(a: State, ev: Event): StreamOrder.Order {
    StreamOrder.OStep(a.order, StreamOrder.KindOf(ev.name))
  }

  /** The checks that both paths begin with: shape, in-band error, tool input. */
  function Checked(env: Env, a: State, ev: Event): BOut<State> {
    if env.validate && !ToolJsonLockstep.WellShaped(ev) then BOut(a, false, Some(MALFORMED))
    else if ev.name == "error" then BOut(a, false, Some(Untold(env.classify(ev.data))))
    else if !env.validate then BOut(a, false, None)
    else
      var v := ToolJson.VStep(env.tool, a.tool, ev);
      BOut(a.(tool := v.state), false, if v.verdict.Accepted? then None else Some(VerdictFailure(v.verdict)))
  }

  function OnBuffered(env: Env, before: State, ev: Event): BOut<State> {
    var c := Checked(env, before.(stop := Scrape(env, before.stop, ev)), ev);
    if c.fail.Some? then c else
    var a := c.state.(order := Order(c.state, ev));
    if a.order.invalid then BOut(a, false, Some(MALFORMED)) else
    var b := a.(sawProgress := a.sawProgress || ev.name == "content_block_delta");
    if !StreamOrder.Terminal(b.order) then BOut(b, false, None)
    else if env.interceptRefusal && b.stop == "refusal" then BOut(b, false, Some(REFUSAL_FALLBACK))
    else BOut(b, true, None)
  }

  function OnLive(env: Env, before: State, ev: Event): LOut<State> {
    var a := before.(stop := Scrape(env, before.stop, ev));
    var c := Checked(env, a, ev);
    if c.fail.Some? then
      if ev.name == "error" && (env.validate ==> ToolJsonLockstep.WellShaped(ev)) && !c.fail.value.transient then
        LOut(c.state, [ev.raw], false, Some(c.fail.value.(delivered := true)))
      else LOut(c.state, [], false, c.fail)
    else if env.streamToolDeltas then
      LOut(c.state.(order := Order(c.state, ev)), [ev.raw], ev.name == "message_stop", None)
    else
      var n := ToolJson.NStep(Norm(env), c.state.norm, ev, ev.raw);
      if !n.verdict.Accepted? then LOut(c.state.(norm := n.state), [], false, Some(VerdictFailure(n.verdict))) else
      var b := c.state.(norm := n.state, order := Order(c.state, ev));
      LOut(b, n.frames, ev.name == "message_stop" || StreamOrder.Terminal(b.order), None)
  }

  /** Re-read the buffer and pass its records through a normalizer (replayBufferedWithNormalizer). */
  function Normalized(env: Env, n: ToolJson.NState, b: Bytes): ToolJson.NOut {
    ToolJson.NRun(Norm(env), n, SseRoundTrip.Parse(b))
  }

  function ReplayVerdictOf(v: ToolJson.Verdict): ReplayVerdict {
    match v
    case Accepted => Whole
    case TooLarge => OverLimit
    case _ => Broken
  }

  function ReplayPrefix(env: Env, a: State, b: Bytes): ROut<State> {
    if env.streamToolDeltas then ROut(a, [b], Whole) else
    var o := Normalized(env, a.norm, b);
    ROut(a.(norm := o.state), o.frames, ReplayVerdictOf(o.verdict))
  }

  function ReplayBuffered(env: Env, a: State, b: Bytes): ROut<State> {
    if !Norm(env).normalize then ROut(a, [b], Whole) else
    var o := Normalized(env, ToolJson.N_START, b);
    ROut(a, o.frames, ReplayVerdictOf(o.verdict))
  }

  function Protocol(env: Env): Wire<State> {
    Wire(
      (a: State, ev: Event) => OnBuffered(env, a, ev),
      (a: State, ev: Event) => OnLive(env, a, ev),
      (a: State, b: Bytes) => ReplayPrefix(env, a, b),
      (a: State, b: Bytes) => ReplayBuffered(env, a, b),
      (a: State) => false,
      (a: State) => a.sawProgress,
      COMMENT)
  }

  // ------------------------------------------------------------------------ the class ----

  lemma ChunkFed(chunks: seq<Bytes>, k: nat)
    requires k < |chunks|
    ensures Concat(chunks[..k + 1]) == Concat(chunks[..k]) + chunks[k]
  {
    assert chunks[..k + 1] == chunks[..k] + [chunks[k]];
    ConcatSplit(chunks[..k], [chunks[k]]);
    ConcatOne(chunks[k]);
  }

  /** What was read so far is a prefix of what the whole buffer holds. */
  lemma PrefixParsed(chunks: seq<Bytes>, k: nat)
    requires k <= |chunks|
    ensures Run(0, Fresh(false), Concat(chunks[..k])).events <= SseRoundTrip.Parse(Concat(chunks))
  {
    TakeDrop(chunks, k);
    ConcatSplit(chunks[..k], chunks[k..]);
    ReadOn(Concat(chunks[..k]), Concat(chunks[k..]));
  }

  lemma ReadOn(a: Bytes, b: Bytes)
    ensures Run(0, Fresh(false), a).events <= SseRoundTrip.Parse(a + b)
  {
    FeedSplit(0, Fresh(false), a, b, true);
  }

  /** A replay that failed on a prefix has failed on the whole, with the same frames. */
  lemma FailedPrefix(env: ToolJson.Env, n: ToolJson.NState, some: seq<Event>, all: seq<Event>)
    requires some <= all && ToolJson.NRun(env, n, some).verdict != ToolJson.Accepted
    ensures ToolJson.NRun(env, n, all) == ToolJson.NRun(env, n, some)
  {
    assert all == some + all[|some|..];
    ToolJson.NRunSplit(env, n, some, all[|some|..]);
  }

  lemma NextPrefix(seen: seq<Event>, events: seq<Event>, i: nat)
    requires i < |events|
    ensures (seen + events[..i]) + [events[i]] == seen + events[..i + 1]
    ensures seen + events[..i + 1] <= seen + events
  {
  }

  /** The events of one read, up to the first that the normalizer rejects. */
  method NormalizeEvents(events: seq<Event>, norm: ToolJson.Normalizer, ghost n: ToolJson.NState, ghost seen: seq<Event>,
    written: seq<Bytes>) returns (more: seq<Bytes>, verdict: ToolJson.Verdict)
    requires ToolJson.NRun(norm.env, n, seen) == ToolJson.NOut(norm.State(), written, ToolJson.Accepted)
    modifies norm
    ensures ToolJson.NRun(norm.env, n, seen + events) == ToolJson.NOut(norm.State(), more, verdict)
  {
    more, verdict := written, ToolJson.Accepted;
    assert seen + events[..0] == seen;
    for i := 0 to |events|
      invariant verdict == ToolJson.Accepted
      invariant ToolJson.NRun(norm.env, n, seen + events[..i]) == ToolJson.NOut(norm.State(), more, verdict)
    {
      var frames, v := norm.Accept(events[i], events[i].raw);
      ToolJson.NRunPush(norm.env, n, seen + events[..i], events[i]);
      NextPrefix(seen, events, i);
      more := more + frames;
      verdict := v;
      if v != ToolJson.Accepted {
        FailedPrefix(norm.env, n, seen + events[..i + 1], seen + events);
        return;
      }
    }
    assert seen + events[..|events|] == seen + events;
  }

  /** Read a buffer in chunks through a parser of its own and write what the normalizer releases. */
  method ReplayWithNormalizer(chunks: seq<Bytes>, norm: ToolJson.Normalizer)
    returns (written: seq<Bytes>, verdict: ToolJson.Verdict)
    modifies norm
    ensures ToolJson.NRun(norm.env, old(norm.State()), SseRoundTrip.Parse(Concat(chunks)))
         == ToolJson.NOut(norm.State(), written, verdict)
  {
    var parser := new Parser(0);
    ghost var n := norm.State();
    written, verdict := [], ToolJson.Accepted;
    ghost var seen: seq<Event> := [];
    for k := 0 to |chunks|
      invariant parser.Valid() && parser.maxEventBytes == 0 && fresh(parser) && verdict == ToolJson.Accepted
      invariant Run(0, Fresh(false), Concat(chunks[..k])) == Out(parser.Abs(), seen)
      invariant ToolJson.NRun(norm.env, n, seen) == ToolJson.NOut(norm.State(), written, verdict)
    {
      ChunkFed(chunks, k);
      RunSplit(0, Fresh(false), Concat(chunks[..k]), chunks[k]);
      var events := parser.FeedChunk(chunks[k], false);
      written, verdict := NormalizeEvents(events, norm, n, seen, written);
      seen := seen + events;
      if verdict != ToolJson.Accepted {
        PrefixParsed(chunks, k + 1);
        FailedPrefix(norm.env, n, seen, SseRoundTrip.Parse(Concat(chunks)));
        return;
      }
    }
    assert chunks[..|chunks|] == chunks;
    FeedSplit(0, Fresh(false), Concat(chunks), "", true);
    assert Concat(chunks) + "" == Concat(chunks);
    var events := parser.FeedChunk("", true);
    written, verdict := NormalizeEvents(events, norm, n, seen, written);
  }

  class Adapter {
    const env: Env
    const val: StreamOrder.StreamValidator
    const toolVal: ToolJson.Validator
    const toolNorm: ToolJson.Normalizer
    var sawProgress: bool
    var stop: Bytes

    ghost predicate Valid() {
      toolVal.env == env.tool && toolNorm.env == Norm(env)
    }

    function Abs(): State
      reads this, val, toolVal, toolNorm
    {
      State(val.State(), toolVal.State(), toolNorm.State(), sawProgress, stop)
    }

    constructor (env: Env)
      ensures Valid() && this.env == env && Abs() == START && fresh(val) && fresh(toolVal) && fresh(toolNorm)
    {
      this.env := env;
      val := new StreamOrder.StreamValidator();
      toolVal := new ToolJson.Validator(env.tool);
      toolNorm := new ToolJson.Normalizer(Norm(env));
      sawProgress, stop := false, "";
    }

    method ScrapeStop(ev: Event)
      modifies this`stop
      ensures Abs() == old(Abs()).(stop := Scrape(env, old(stop), ev))
    {
      var reason := env.stopReason(ev);
      if reason.Some? {
        stop := reason.value;
      }
    }

    method Check(ev: Event) returns (fail: Option<Failure>)
      requires Valid()
      modifies toolVal
      ensures BOut(Abs(), false, fail) == Checked(env, old(Abs()), ev)
    {
      if env.validate && !ToolJsonLockstep.WellShaped(ev) {
        return Some(MALFORMED);
      }
      if ev.name == "error" {
        return Some(Untold(env.classify(ev.data)));
      }
      if env.validate {
        var verdict := toolVal.Accept(ev);
        if verdict != ToolJson.Accepted {
          return Some(VerdictFailure(verdict));
        }
      }
      return None;
    }

    method BufferedEvent(ev: Event) returns (done: bool, fail: Option<Failure>)
      requires Valid()
      modifies this, val, toolVal
      ensures BOut(Abs(), done, fail) == OnBuffered(env, old(Abs()), ev)
    {
      ScrapeStop(ev);
      done := false;
      fail := Check(ev);
      if fail.Some? {
        return;
      }
      val.Accept(ev);
      if val.invalid {
        return false, Some(MALFORMED);
      }
      if ev.name == "content_block_delta" {
        sawProgress := true;
      }
      if StreamOrder.Terminal(val.State()) {
        if env.interceptRefusal && stop == "refusal" {
          return false, Some(REFUSAL_FALLBACK);
        }
        return true, None;
      }
    }

    method LiveEvent(ev: Event) returns (frames: seq<Bytes>, done: bool, fail: Option<Failure>)
      requires Valid()
      modifies this, val, toolVal, toolNorm
      ensures LOut(Abs(), frames, done, fail) == OnLive(env, old(Abs()), ev)
    {
      ScrapeStop(ev);
      frames, done := [], false;
      fail := Check(ev);
      if fail.Some? {
        if ev.name == "error" && (env.validate ==> ToolJsonLockstep.WellShaped(ev)) && !fail.value.transient {
          frames, fail := [ev.raw], Some(fail.value.(delivered := true));
        }
        return;
      }
      if env.streamToolDeltas {
        val.Accept(ev);
        return [ev.raw], ev.name == "message_stop", None;
      }
      var verdict;
      frames, verdict := toolNorm.Accept(ev, ev.raw);
      if verdict != ToolJson.Accepted {
        return [], false, Some(VerdictFailure(verdict));
      }
      val.Accept(ev);
      done := ev.name == "message_stop" || StreamOrder.Terminal(val.State());
    }

    /** The buffered prefix goes through the normalizer that live streaming continues with. */
    method WritePrefix(chunks: seq<Bytes>) returns (frames: seq<Bytes>, verdict: ReplayVerdict)
      requires Valid()
      modifies toolNorm
      ensures Concat(frames) == Concat(ReplayPrefix(env, old(Abs()), Concat(chunks)).frames)
      ensures verdict == ReplayPrefix(env, old(Abs()), Concat(chunks)).verdict
      ensures Abs() == ReplayPrefix(env, old(Abs()), Concat(chunks)).state
    {
      if env.streamToolDeltas {
        ConcatOne(Concat(chunks));
        return chunks, Whole;
      }
      var v;
      frames, v := ReplayWithNormalizer(chunks, toolNorm);
      verdict := ReplayVerdictOf(v);
    }

    /** A whole buffer gets a normalizer of its own. */
    method WriteBuffered(chunks: seq<Bytes>) returns (frames: seq<Bytes>, verdict: ReplayVerdict)
      requires Valid()
      ensures Concat(frames) == Concat(ReplayBuffered(env, Abs(), Concat(chunks)).frames)
      ensures verdict == ReplayBuffered(env, Abs(), Concat(chunks)).verdict
    {
      if !Norm(env).normalize {
        ConcatOne(Concat(chunks));
        return chunks, Whole;
      }
      var own := new ToolJson.Normalizer(Norm(env));
      var v;
      frames, v := ReplayWithNormalizer(chunks, own);
      verdict := ReplayVerdictOf(v);
    }
  }
}
