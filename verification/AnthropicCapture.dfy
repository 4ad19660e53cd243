/**
 Whole captures of an Anthropic stream: what is delivered does not depend on when the commit
 happened, and what is delivered as complete is complete.
 */
module AnthropicCapture {
  import opened Common
  import opened Failures
  import opened SseParser
  import opened SseRoundTrip
  import opened Capture
  import opened CaptureTransparency
  import opened CaptureBeats
  import opened AnthropicWire
  import SseLines
  import StreamOrder
  import ToolJson
  import ToolJsonLockstep

  type Wires = AnthropicWire.State

  lemma KindsPush(evs: seq<Event>, ev: Event)
    ensures StreamOrder.Kinds(evs + [ev]) == StreamOrder.Kinds(evs) + [StreamOrder.KindOf(ev.name)]
  {
  }

  lemma OrderPush(ks: seq<StreamOrder.Kind>, k: StreamOrder.Kind)
    ensures StreamOrder.ORun(ks + [k]) == StreamOrder.OStep(StreamOrder.ORun(ks), k)
  {
    assert (ks + [k])[..|ks + [k]| - 1] == ks;
  }

  // ------------------------------------------------------------- before the commit ----

  /** Everything the wire knows after validating these events, none of them terminal. */
  ghost predicate Validated(env: Env, evs: seq<Event>, a: Wires) {
    && a.norm == ToolJson.N_START
    && a.order == StreamOrder.ORun(StreamOrder.Kinds(evs)) && !a.order.invalid
    && StreamOrder.MessageStop !in StreamOrder.Kinds(evs)
    && (env.validate ==> ToolJson.VRun(env.tool, ToolJson.V_START, evs) == ToolJson.VOut(a.tool, ToolJson.Accepted))
    && (env.validate ==> forall ev | ev in evs :: ToolJsonLockstep.WellShaped(ev))
  }

  /** One more kind that the order check did not reject. */
  lemma OrderAccepts(ks: seq<StreamOrder.Kind>, k: StreamOrder.Kind)
    requires StreamOrder.MessageStop !in ks && !StreamOrder.ORun(ks + [k]).invalid
    ensures StreamOrder.Terminal(StreamOrder.ORun(ks + [k])) <==> k.MessageStop?
    ensures k.MessageStop? ==> StreamOrder.CompleteStream(ks + [k])
    ensures !k.MessageStop? ==> StreamOrder.MessageStop !in ks + [k]
  {
    OrderPush(ks, k);
    StreamOrder.RunIsOpened(ks);
    if k.MessageStop? {
      StreamOrder.TerminalIsComplete(ks);
    }
  }

  /** What the buffered path checks before it looks at the order. */
  lemma CheckedPush(env: Env, evs: seq<Event>, a: Wires, ev: Event)
    requires env.validate && Checked(env, a, ev).fail.None?
    requires ToolJson.VRun(env.tool, ToolJson.V_START, evs) == ToolJson.VOut(a.tool, ToolJson.Accepted)
    ensures ToolJsonLockstep.WellShaped(ev)
    ensures ToolJson.VRun(env.tool, ToolJson.V_START, evs + [ev])
         == ToolJson.VOut(Checked(env, a, ev).state.tool, ToolJson.Accepted)
  {
    ToolJson.VRunPush(env.tool, ToolJson.V_START, evs, ev);
  }

  /** An event that the buffered path did not reject, in terms of its two checks. */
  lemma BufferedParts(env: Env, a: Wires, ev: Event)
    requires OnBuffered(env, a, ev).fail.None?
    ensures var o := OnBuffered(env, a, ev);
      var c := Checked(env, a.(stop := Scrape(env, a.stop, ev)), ev);
      && c.fail.None? && o.state.tool == c.state.tool && o.state.norm == a.norm
      && o.state.order == Order(a, ev) && !o.state.order.invalid
      && (o.done <==> StreamOrder.Terminal(o.state.order))
  {
  }

  /** One more event that the buffered path did not reject. */
  lemma ValidatedPush(env: Env, evs: seq<Event>, a: Wires, ev: Event)
    requires Validated(env, evs, a) && OnBuffered(env, a, ev).fail.None?
    ensures var o := OnBuffered(env, a, ev);
      && (!o.done ==> Validated(env, evs + [ev], o.state))
      && (o.done ==> StreamOrder.CompleteStream(StreamOrder.Kinds(evs + [ev])))
      && (env.validate ==> ToolJsonLockstep.WellShaped(ev))
      && (env.validate ==> ToolJson.VRun(env.tool, ToolJson.V_START, evs + [ev]) == ToolJson.VOut(o.state.tool, ToolJson.Accepted))
  {
    var k := StreamOrder.KindOf(ev.name);
    BufferedParts(env, a, ev);
    KindsPush(evs, ev);
    OrderPush(StreamOrder.Kinds(evs), k);
    OrderAccepts(StreamOrder.Kinds(evs), k);
    if env.validate {
      CheckedPush(env, evs, a.(stop := Scrape(env, a.stop, ev)), ev);
    }
  }

  lemma {:induction false} BufferedValidated(env: Env, evs: seq<Event>)
    requires var o := BufferedRun(Protocol(env), START, evs); !o.done && o.fail.None?
    ensures Validated(env, evs, BufferedRun(Protocol(env), START, evs).state)
    decreases |evs|
  {
    if evs != [] {
      var init, ev := Init(evs), evs[|evs| - 1];
      assert evs == init + [ev];
      BufferedValidated(env, init);
      ValidatedPush(env, init, BufferedRun(Protocol(env), START, init).state, ev);
    }
  }

  // -------------------------------------------------------------- after the commit ----

  /** Live streaming is the normalizer, carried on from where the replay left it. */
  lemma {:induction false} LiveIsNormalized(env: Env, a: Wires, evs: seq<Event>)
    requires !env.streamToolDeltas && LiveRun(Protocol(env), a, evs).fail.None?
    requires !LiveRun(Protocol(env), a, Init(evs)).done
    ensures var o := LiveRun(Protocol(env), a, evs);
      ToolJson.NRun(Norm(env), a.norm, evs) == ToolJson.NOut(o.state.norm, o.frames, ToolJson.Accepted)
    decreases |evs|
  {
    if evs != [] {
      var init, ev := Init(evs), evs[|evs| - 1];
      assert evs == init + [ev];
      LiveInit(Protocol(env), a, evs);
      LiveIsNormalized(env, a, init);
      var before := LiveRun(Protocol(env), a, init);
      ToolJson.NRunPush(Norm(env), a.norm, init, ev);
      LiveStepNormalized(env, before.state, ev);
    }
  }

  lemma LiveStepNormalized(env: Env, a: Wires, ev: Event)
    requires !env.streamToolDeltas && OnLive(env, a, ev).fail.None?
    ensures var o := OnLive(env, a, ev);
      ToolJson.NStep(Norm(env), a.norm, ev, ev.raw) == ToolJson.NOut(o.state.norm, o.frames, ToolJson.Accepted)
  {
  }

  lemma LiveInit<W>(wire: Wire<W>, w: W, evs: seq<Event>)
    requires evs != [] && LiveRun(wire, w, evs).fail.None? && !LiveRun(wire, w, Init(evs)).done
    ensures LiveRun(wire, w, Init(evs)).fail.None? && !LiveRun(wire, w, Init(Init(evs))).done
  {
  }

  /** Switched off, the normalizer lets everything through. */
  lemma {:induction false} NRunOff(env: ToolJson.Env, n: ToolJson.NState, evs: seq<Event>)
    requires !env.normalize
    ensures ToolJson.NRun(env, n, evs) == ToolJson.NOut(n, Raws(evs), ToolJson.Accepted)
    decreases |evs|
  {
    if evs != [] {
      NRunOff(env, n, evs[1..]);
      assert Raws(evs) == [evs[0].raw] + Raws(evs[1..]);
    }
  }

  /** The capture goes through the normalizer: all of it, unless it is committed and streams raw
      fragments from then on. If the buffer's bytes are thereby read again, its first record survives. */
  predicate Normalizes(env: Env, committed: bool, evs: seq<Event>) {
    (committed ==> !env.streamToolDeltas) && (committed || Norm(env).normalize ==> FirstSurvives(evs))
  }

  /** The buffer came out of the stream parser, and the capture goes through the normalizer. */
  ghost predicate Rereads(env: Env, l: Ledger<Wires>, max: int, fed: Bytes, eof: bool) {
    l.buffered <= Feed(max, Fresh(false), fed, eof).events && Normalizes(env, l.committed, l.buffered)
  }

  lemma BufferReads(max: int, fed: Bytes, eof: bool, evs: seq<Event>)
    requires evs <= Feed(max, Fresh(false), fed, eof).events && FirstSurvives(evs)
    ensures Parse(Concat(Raws(evs))) == evs
  {
    RoundTrip(max, fed, eof, |evs|);
    assert Feed(max, Fresh(false), fed, eof).events[..|evs|] == evs;
  }

  /** Replaying any prefix from the spool and streaming the rest through the same normalizer gives
      the frames of replaying everything through a fresh one. */
  lemma Handoff(env: Env, a: Wires, buffered: seq<Event>, live: seq<Event>)
    requires !env.streamToolDeltas && a.norm == ToolJson.N_START
    requires Parse(Concat(Raws(buffered))) == buffered
    requires var p := ReplayPrefix(env, a, Concat(Raws(buffered)));
      && p.verdict.Whole?
      && LiveRun(Protocol(env), p.state, live).fail.None? && !LiveRun(Protocol(env), p.state, Init(live)).done
    ensures var p := ReplayPrefix(env, a, Concat(Raws(buffered)));
      var o := LiveRun(Protocol(env), p.state, live);
      ToolJson.NRun(Norm(env), ToolJson.N_START, buffered + live)
      == ToolJson.NOut(o.state.norm, p.frames + o.frames, ToolJson.Accepted)
  {
    var p := ReplayPrefix(env, a, Concat(Raws(buffered)));
    LiveIsNormalized(env, p.state, live);
    ToolJson.NRunSplit(Norm(env), ToolJson.N_START, buffered, live);
  }

  /** A successful main-session capture delivers exactly the normalizer's rendering of the events that
      were looked at: whether, and after which of them, it was committed to live streaming plays no
      part in what the client receives. */
  lemma HandoffIndependence(env: Env, s: Setup<Wires>, l: Ledger<Wires>, atEof: bool, max: int, fed: Bytes, eof: bool)
    requires s.wire == Protocol(env) && s.start == START
    requires Ended(s, l, Result(true, None), atEof) && NothingPast(s, l)
    requires Rereads(env, l, max, fed, eof)
    ensures var o := ToolJson.NRun(Norm(env), ToolJson.N_START, l.buffered + l.live);
      o.verdict.Accepted? && Sent(l.trace) == Concat(o.frames)
  {
    if l.committed {
      BufferReads(max, fed, eof, l.buffered);
      BufferedValidated(env, l.buffered);
      Handoff(env, l.atCommit, l.buffered, l.live);
      ConcatSplit(Prefix(s, l).frames, LiveOf(s, l).frames);
    } else {
      BufferedRenders(env, s, l, max, fed, eof);
    }
  }

  /** A whole replay of the buffer that gets across is a rendering that the normalizer accepts. */
  lemma BufferedRenders(env: Env, s: Setup<Wires>, l: Ledger<Wires>, max: int, fed: Bytes, eof: bool)
    requires s.wire == Protocol(env) && s.start == START && !l.committed
    requires BufferedRecord(s, l, None) && Rereads(env, l, max, fed, eof)
    ensures var o := ToolJson.NRun(Norm(env), ToolJson.N_START, l.buffered + l.live);
      o.verdict.Accepted? && Sent(l.trace) == Concat(o.frames)
  {
    var b := Concat(Raws(l.buffered));
    assert l.buffered + l.live == l.buffered;
    TwoWrites(false, Concat(ReplayBuffered(env, BufferedRun(s.wire, s.start, l.buffered).state, b).frames));
    if Norm(env).normalize {
      BufferReads(max, fed, eof, l.buffered);
    } else {
      NRunOff(Norm(env), ToolJson.N_START, l.buffered);
      ConcatOne(b);
    }
  }

  /** What a client that gets these events through one fresh normalizer receives. */
  function Rendering(env: Env, evs: seq<Event>): Bytes {
    Concat(ToolJson.NRun(Norm(env), ToolJson.N_START, evs).frames)
  }

  /** A failing live event leaves nothing, or is an error frame that was forwarded. */
  lemma LastFrames(env: Env, a: Wires, live: seq<Event>)
    requires live != [] && LiveRun(Protocol(env), a, live).fail.Some?
    requires var o := LiveRun(Protocol(env), a, Init(live)); !o.done && o.fail.None?
    ensures var o, last := LiveRun(Protocol(env), a, live), live[|live| - 1];
      var before := Concat(LiveRun(Protocol(env), a, Init(live)).frames);
      Concat(o.frames) == before || (Concat(o.frames) == before + last.raw && last.name == "error" && o.fail.value.delivered)
  {
    var before, last := LiveRun(Protocol(env), a, Init(live)), live[|live| - 1];
    assert live == Init(live) + [last];
    var o := OnLive(env, before.state, last);
    ConcatSplit(before.frames, o.frames);
    ConcatOne(last.raw);
    EmptyPlus(Concat(before.frames));
  }

  /** The frames of a replay at the commit. */
  lemma PrefixRenders(env: Env, s: Setup<Wires>, l: Ledger<Wires>)
    requires s.wire == Protocol(env) && s.start == START && !env.streamToolDeltas
    requires l.committed && CommittedAt(s, l) && Parse(Concat(Raws(l.buffered))) == l.buffered
    ensures l.atCommit.norm == ToolJson.N_START && Concat(Prefix(s, l).frames) == Rendering(env, l.buffered)
  {
    BufferedValidated(env, l.buffered);
  }

  /** The frames of a whole replay. */
  lemma WholeRenders(env: Env, a: Wires, evs: seq<Event>)
    requires Norm(env).normalize ==> Parse(Concat(Raws(evs))) == evs
    ensures Concat(ReplayBuffered(env, a, Concat(Raws(evs))).frames) == Rendering(env, evs)
  {
    if !Norm(env).normalize {
      NRunOff(Norm(env), ToolJson.N_START, evs);
      ConcatOne(Concat(Raws(evs)));
    }
  }

  lemma LiveRenders(env: Env, s: Setup<Wires>, l: Ledger<Wires>, live: seq<Event>)
    requires s.wire == Protocol(env) && s.start == START && !env.streamToolDeltas
    requires l.committed && CommittedAt(s, l) && Parse(Concat(Raws(l.buffered))) == l.buffered && Prefix(s, l).verdict.Whole?
    requires LiveRun(s.wire, Prefix(s, l).state, live).fail.None? && !LiveRun(s.wire, Prefix(s, l).state, Init(live)).done
    ensures Concat(Prefix(s, l).frames) + Concat(LiveRun(s.wire, Prefix(s, l).state, live).frames) == Rendering(env, l.buffered + live)
  {
    PrefixRenders(env, s, l);
    Handoff(env, l.atCommit, l.buffered, live);
    ConcatSplit(Prefix(s, l).frames, LiveRun(s.wire, Prefix(s, l).state, live).frames);
  }

  /** However a capture ends, the client has a prefix of that rendering: what a broken off replay got
      across, all of it up to the event that failed, or all of it. Only a forwarded error frame may
      come on top. */
  lemma AlwaysRendersPrefix(env: Env, s: Setup<Wires>, l: Ledger<Wires>, res: Result, atEof: bool, max: int, fed: Bytes, eof: bool)
    requires s.wire == Protocol(env) && s.start == START
    requires Ended(s, l, res, atEof) && NothingPast(s, l)
    requires Rereads(env, l, max, fed, eof)
    ensures if !l.committed || !Complete(s, Prefix(s, l)) then Sent(l.trace) <= Rendering(env, l.buffered)
      else if LiveOf(s, l).fail.None? then Sent(l.trace) == Rendering(env, l.buffered + l.live)
      else
        && l.live != []
        && var before, last := Rendering(env, l.buffered + Init(l.live)), l.live[|l.live| - 1];
           Sent(l.trace) == before || (Sent(l.trace) == before + last.raw && last.name == "error" && LiveOf(s, l).fail.value.delivered)
  {
    if l.committed || Norm(env).normalize {
      BufferReads(max, fed, eof, l.buffered);
    }
    if !l.committed {
      WholePrefix(env, s, l, res);
    } else if !Complete(s, Prefix(s, l)) {
      PrefixRenders(env, s, l);
      EmptyPlus(Written(s.room, Concat(Prefix(s, l).frames)));
    } else if LiveOf(s, l).fail.None? {
      LiveRenders(env, s, l, l.live);
    } else {
      LiveStops(env, s, l);
    }
  }

  lemma RenderingGrows(env: Env, a: seq<Event>, b: seq<Event>)
    ensures Rendering(env, a) <= Rendering(env, a + b)
  {
    ToolJson.NRunSplit(Norm(env), ToolJson.N_START, a, b);
    var x := ToolJson.NRun(Norm(env), ToolJson.N_START, a);
    ConcatSplit(x.frames, ToolJson.NRun(Norm(env), x.state, b).frames);
  }

  /** A prefix of what one normalizer makes of the events, or of all but the last one and that one's
      own bytes, an in-band error. */
  ghost predicate PrefixRendered(env: Env, evs: seq<Event>, sent: Bytes) {
    || sent <= Rendering(env, evs)
    || (evs != [] && evs[|evs| - 1].name == "error" && sent == Rendering(env, Init(evs)) + evs[|evs| - 1].raw)
  }

  lemma AlwaysPrefix(env: Env, s: Setup<Wires>, l: Ledger<Wires>, res: Result, atEof: bool, max: int, fed: Bytes, eof: bool)
    requires s.wire == Protocol(env) && s.start == START
    requires Ended(s, l, res, atEof) && NothingPast(s, l)
    requires Rereads(env, l, max, fed, eof)
    ensures PrefixRendered(env, l.buffered + l.live, Sent(l.trace))
  {
    AlwaysRendersPrefix(env, s, l, res, atEof, max, fed, eof);
    RenderingGrows(env, l.buffered, l.live);
    if l.live != [] {
      InitOfJoin(l.buffered, l.live);
      RenderingGrows(env, l.buffered + Init(l.live), [l.live[|l.live| - 1]]);
    }
  }

  lemma InitOfJoin(a: seq<Event>, b: seq<Event>)
    requires b != []
    ensures a + b == (a + Init(b)) + [b[|b| - 1]] && Init(a + b) == a + Init(b)
  {
  }

  lemma WholePrefix(env: Env, s: Setup<Wires>, l: Ledger<Wires>, res: Result)
    requires s.wire == Protocol(env) && s.start == START && !l.committed
    requires Norm(env).normalize ==> Parse(Concat(Raws(l.buffered))) == l.buffered
    requires l.trace == [] || BufferedRecord(s, l, res.fail)
    ensures Sent(l.trace) <= Rendering(env, l.buffered)
  {
    if l.trace != [] {
      var a := BufferedRun(s.wire, s.start, l.buffered).state;
      WholeRenders(env, a, l.buffered);
      TwoWrites(false, Written(s.room, Concat(ReplayBuffered(env, a, Concat(Raws(l.buffered))).frames)));
    }
  }

  lemma LiveStops(env: Env, s: Setup<Wires>, l: Ledger<Wires>)
    requires s.wire == Protocol(env) && s.start == START && !env.streamToolDeltas
    requires l.committed && LiveRecord(s, l) && Parse(Concat(Raws(l.buffered))) == l.buffered
    requires Complete(s, Prefix(s, l)) && LiveOf(s, l).fail.Some? && NothingPast(s, l)
    ensures l.live != []
    ensures var before, last := Rendering(env, l.buffered + Init(l.live)), l.live[|l.live| - 1];
      Sent(l.trace) == before || (Sent(l.trace) == before + last.raw && last.name == "error" && LiveOf(s, l).fail.value.delivered)
  {
    var a := Prefix(s, l).state;
    assert LiveRun(s.wire, a, []).fail.None?;
    LastFrames(env, a, l.live);
    LiveRenders(env, s, l, Init(l.live));
    Assoc(Concat(Prefix(s, l).frames), Concat(LiveRun(s.wire, a, Init(l.live)).frames), l.live[|l.live| - 1].raw);
  }

  // ------------------------------------------------------------- without coalescing ----

  lemma LiveOffIsRaw(env: Env, a: Wires, ev: Event)
    requires env.streamToolDeltas || !Norm(env).normalize
    ensures RawFrames(OnLive(env, a, ev), ev)
  {
  }

  /** The bytes of the first record are still there when it is re-read at the start of a stream: it has
      no mark, or the text after the mark, or some later line, still makes a record. */
  predicate RawSurvives(evs: seq<Event>) {
    evs != [] && BOM <= evs[0].raw ==>
      SseLines.Marked(evs[0].raw) && SseLines.SomeText(SseLines.Unmarked(evs[0].raw))
  }

  lemma RawSurvivesIff(e: Event)
    requires Closes(true, e) || Closes(false, e)
    ensures Concat(Raws(Parse(e.raw))) == e.raw <==> RawSurvives([e])
  {
    RereadOne(e);
    ConcatOne(e.raw);
    assert Raws([e]) == [e.raw];
    if BOM <= e.raw {
      if SseLines.Marked(e.raw) {
        var cur := SseLines.Fold(NO_RECORD, SseLines.Unmarked(e.raw));
        SseLines.FoldHas(NO_RECORD, SseLines.Unmarked(e.raw));
        assert Raws([Event(cur.name, cur.data, e.raw)]) == [e.raw];
        assert e.raw != "";
      } else {
        ClosedFrame(e);
        LostMark(e.raw);
      }
    }
  }

  /** Without text after the mark, its line is a blank one, and its bytes are gone. */
  lemma LostMark(raw: Bytes)
    requires BOM <= raw && SseLines.OneFrame(raw) && !SseLines.Marked(raw)
    ensures |Concat(Raws(Parse(raw)))| < |raw|
  {
    ParseIsLines(raw);
    SseLines.RereadBare(raw);
    ShorterRaws(Parse(raw), raw);
  }

  lemma ShorterRaws(evs: seq<Event>, raw: Bytes)
    requires raw != "" && |evs| <= 1 && forall e | e in evs :: |e.raw| < |raw|
    ensures |Concat(Raws(evs))| < |raw|
  {
    if evs != [] {
      assert Raws(evs) == [evs[0].raw];
      ConcatOne(evs[0].raw);
    }
  }

  lemma RawsOfParse(max: int, fed: Bytes, eof: bool, evs: seq<Event>)
    requires evs <= Feed(max, Fresh(false), fed, eof).events
    ensures Concat(Raws(Parse(Concat(Raws(evs))))) == Concat(Raws(evs)) <==> RawSurvives(evs)
  {
    if evs != [] {
      OnlyFirstChanges(max, fed, eof, evs);
      var first, rest := Parse(evs[0].raw), evs[1..];
      RawsSplit(first, rest);
      assert evs == [evs[0]] + rest;
      RawsSplit([evs[0]], rest);
      assert Raws([evs[0]]) == [evs[0].raw];
      ConcatOne(evs[0].raw);
      FirstCloses(max, fed, eof, evs);
      RawSurvivesIff(evs[0]);
      SameTail(Concat(Raws(first)), evs[0].raw, Concat(Raws(rest)));
    }
  }

  lemma SameTail(x: Bytes, y: Bytes, tail: Bytes)
    ensures x + tail == y + tail <==> x == y
  {
    if x + tail == y + tail {
      assert |x| == |y|;
      assert x == (x + tail)[..|x|] && y == (y + tail)[..|y|];
    }
  }

  /** With coalescing off a replay of the buffer still goes through a parser when it is a prefix, and
      keeps every byte if and only if the first record keeps its own. */
  lemma OffPrefixIsRaw(env: Env, max: int, fed: Bytes, eof: bool, evs: seq<Event>)
    requires !env.streamToolDeltas && !Norm(env).normalize
    requires evs <= Feed(max, Fresh(false), fed, eof).events
    ensures RawPrefix(Protocol(env), Concat(Raws(evs))) <==> RawSurvives(evs)
  {
    var b := Concat(Raws(evs));
    RawsOfParse(max, fed, eof, evs);
    forall a: Wires ensures Concat(Protocol(env).replayPrefix(a, b).frames) == Concat(Raws(Parse(b))) {
      NRunOff(Norm(env), a.norm, Parse(b));
    }
    assert Concat(Protocol(env).replayPrefix(START, b).frames) == Concat(Raws(Parse(b)));
  }

  /** The capture passes on raw bytes: without coalescing, or streaming raw fragments after its commit. */
  predicate PassesRaw(env: Env, committed: bool, evs: seq<Event>) {
    if env.streamToolDeltas then committed || !Norm(env).normalize
    else !Norm(env).normalize && (committed ==> RawSurvives(evs))
  }

  /** A capture without coalescing, or one that streams raw fragments after its commit, is
      byte-exact: on success the client has every byte, and otherwise a prefix. */
  lemma OffIsByteExact(env: Env, s: Setup<Wires>, l: Ledger<Wires>, res: Result, atEof: bool, max: int, fed: Bytes, eof: bool)
    requires s.wire == Protocol(env) && Ended(s, l, res, atEof) && NothingPast(s, l)
    requires l.buffered <= Feed(max, Fresh(false), fed, eof).events
    requires PassesRaw(env, l.committed, l.buffered)
    ensures res.wrote && res.fail.None? ==> Sent(l.trace) == Concat(Raws(l.buffered + l.live))
    ensures Sent(l.trace) <= Concat(Raws(l.buffered + l.live))
  {
    var b := Concat(Raws(l.buffered));
    ConcatOne(b);
    forall a: Wires, ev: Event ensures RawFrames(Protocol(env).live(a, ev), ev) {
      LiveOffIsRaw(env, a, ev);
    }
    if !env.streamToolDeltas {
      OffPrefixIsRaw(env, max, fed, eof, l.buffered);
    }
    Transparent(s, l, res, atEof);
  }

  /** A committed capture that passes on raw bytes does so on both sides of the commit. */
  lemma RawProtocol(env: Env, max: int, fed: Bytes, eof: bool, buffered: seq<Event>)
    requires PassesRaw(env, true, buffered) && buffered <= Feed(max, Fresh(false), fed, eof).events
    ensures RawLive(Protocol(env)) && RawPrefix(Protocol(env), Concat(Raws(buffered)))
  {
    forall a: Wires, ev: Event ensures RawFrames(Protocol(env).live(a, ev), ev) {
      LiveOffIsRaw(env, a, ev);
    }
    if env.streamToolDeltas {
      ConcatOne(Concat(Raws(buffered)));
    } else {
      OffPrefixIsRaw(env, max, fed, eof, buffered);
    }
  }

  /** A capture that passes on raw bytes after its commit: its client reads the records it was sent from
      all the bytes, keepalives among them, if and only if the first one reads alike where it stands. */
  lemma KeepalivesUnheard(env: Env, s: Setup<Wires>, l: Ledger<Wires>, max: int, fed: Bytes, eof: bool)
    requires s.wire == Protocol(env) && l.committed && LiveRecord(s, l) && Complete(s, Prefix(s, l)) && NothingPast(s, l)
    requires l.buffered + l.live <= Feed(max, Fresh(false), fed, eof).events
    requires PassesRaw(env, true, l.buffered)
    ensures Told(s, l) == l.live || (LiveOf(s, l).fail.Some? && Told(s, l) == Init(l.live))
    ensures Parse(All(l.trace)) == l.buffered + Told(s, l) <==> OpensWell(l.trace, l.buffered, Told(s, l))
  {
    PrefixOfJoin(l.buffered, l.live, Feed(max, Fresh(false), fed, eof).events);
    RawProtocol(env, max, fed, eof, l.buffered);
    CommentIsBeat();
    CommentRead(s, l, max, fed, eof);
  }

  lemma PrefixOfJoin(a: seq<Event>, b: seq<Event>, all: seq<Event>)
    requires a + b <= all
    ensures a <= all
  {
    assert a <= a + b;
  }

  /** The exception is real: after a dropped comment frame, a frame that is only a byte-order mark is
      an empty record; a commit that finds it first in the buffer writes nothing of it, with coalescing
      on or off, where one normalizer that gets the record passes it on. */
  lemma BomIsLost(env: Env)
    requires !env.streamToolDeltas
    ensures var evs := Feed(0, Fresh(false), ":\n\n" + BOM + "\n\n", true).events;
      && Concat(Raws(evs)) == BOM + "\n\n"
      && ReplayPrefix(env, START, Concat(Raws(evs))).frames == []
      && Rendering(env, evs) == BOM + "\n\n"
  {
    BomAfterDroppedFrame();
    var raw := BOM + "\n\n";
    var e := Event("", "", raw);
    assert Raws([e]) == [raw];
    ConcatOne(raw);
    ToolJson.NRunOne(Norm(env), ToolJson.N_START, e);
  }

  // ---------------------------------------------------------------- what is complete ----

  lemma {:induction false} LiveNoStop(env: Env, a: Wires, evs: seq<Event>)
    requires !a.order.sawStop
    requires var o := LiveRun(Protocol(env), a, evs); !o.done && o.fail.None?
    ensures !LiveRun(Protocol(env), a, evs).state.order.sawStop
    decreases |evs|
  {
    if evs != [] {
      LiveNoStop(env, a, Init(evs));
      LiveStepNoStop(env, LiveRun(Protocol(env), a, Init(evs)).state, evs[|evs| - 1]);
    }
  }

  lemma LiveStepNoStop(env: Env, a: Wires, ev: Event)
    requires !a.order.sawStop
    requires !OnLive(env, a, ev).done && OnLive(env, a, ev).fail.None?
    ensures !OnLive(env, a, ev).state.order.sawStop
  {
    StopIsNamed(ev.name);
  }

  lemma StopIsNamed(name: Bytes)
    ensures StreamOrder.KindOf(name).MessageStop? <==> name == "message_stop"
  {
  }

  lemma LiveDone(env: Env, a: Wires, ev: Event)
    requires !a.order.sawStop && OnLive(env, a, ev).done && OnLive(env, a, ev).fail.None?
    ensures ev.name == "message_stop"
  {
    StopIsNamed(ev.name);
  }

  lemma LiveSuccess(env: Env, wire: Wire<Wires>, a: Wires, live: seq<Event>)
    requires !a.order.sawStop
    requires wire == Protocol(env) && StopsAt(wire, a, live)
    ensures live != [] && live[|live| - 1].name == "message_stop"
  {
    assert live != [];
    LastLive(wire, a, live);
    LiveNoStop(env, a, Init(live));
    LastDone(env, LiveRun(wire, a, Init(live)).state, live[|live| - 1]);
  }

  /** The last event, and none before it, is terminal. */
  predicate StopsAt<W>(wire: Wire<W>, w: W, evs: seq<Event>) {
    var before, o := LiveRun(wire, w, Init(evs)), LiveRun(wire, w, evs);
    !before.done && before.fail.None? && o.done && o.fail.None?
  }

  lemma LastDone(env: Env, a: Wires, ev: Event)
    requires !a.order.sawStop
    requires var o := Protocol(env).live(a, ev); o.done && o.fail.None?
    ensures ev.name == "message_stop"
  {
    LiveDone(env, a, ev);
  }

  /** The commit leaves the order check where it was. */
  lemma CommitKeepsOrder(env: Env, s: Setup<Wires>, l: Ledger<Wires>)
    requires s.wire == Protocol(env) && s.start == START && CommittedAt(s, l)
    ensures !Prefix(s, l).state.order.sawStop
  {
    BufferedValidated(env, l.buffered);
    StreamOrder.RunIsOpened(StreamOrder.Kinds(l.buffered));
  }

  /** A capture succeeds only at a message_stop. One that was buffered to the end is, as a whole, a
      complete stream: one message_start first, every block closed, one message_stop last. */
  lemma SuccessIsComplete(env: Env, s: Setup<Wires>, l: Ledger<Wires>, atEof: bool)
    requires s.wire == Protocol(env) && s.start == START
    requires Ended(s, l, Result(true, None), atEof) && NothingPast(s, l)
    ensures var evs := l.buffered + l.live; evs != [] && evs[|evs| - 1].name == "message_stop"
    ensures !l.committed ==> StreamOrder.CompleteStream(StreamOrder.Kinds(l.buffered))
  {
    LastOfJoin(l.buffered, l.live);
    if l.committed {
      CommitKeepsOrder(env, s, l);
      LiveSuccess(env, s.wire, Prefix(s, l).state, l.live);
    } else {
      BufferedComplete(env, l.buffered);
      StopIsNamed(l.buffered[|l.buffered| - 1].name);
    }
  }

  /** Ending the buffered path, with a deliverable stream or a refusal of one. */
  lemma BufferedComplete(env: Env, evs: seq<Event>)
    requires var b := BufferedRun(Protocol(env), START, Init(evs)); !b.done && b.fail.None?
    requires BufferedRun(Protocol(env), START, evs).done && BufferedRun(Protocol(env), START, evs).fail.None?
    ensures evs != [] && StreamOrder.CompleteStream(StreamOrder.Kinds(evs))
    ensures env.validate ==> ToolJson.VRun(env.tool, ToolJson.V_START, evs).verdict.Accepted?
    ensures env.validate ==> forall ev | ev in evs :: ToolJsonLockstep.WellShaped(ev)
  {
    var init, ev := Init(evs), evs[|evs| - 1];
    assert evs == init + [ev];
    BufferedValidated(env, init);
    ValidatedPush(env, init, BufferedRun(Protocol(env), START, init).state, ev);
  }

  /** No in-band error is classified under the code that marks a refusal. */
  ghost predicate ErrorsAreErrors(env: Env) {
    forall data :: !IsRefusal(env.classify(data))
  }

  lemma OnlyRefusalRefuses(env: Env, a: Wires, ev: Event)
    requires ErrorsAreErrors(env) && Refuses(OnBuffered(env, a, ev).fail)
    ensures var c := Checked(env, a.(stop := Scrape(env, a.stop, ev)), ev);
      && c.fail.None? && c.state.tool == OnBuffered(env, a, ev).state.tool
      && !Order(a, ev).invalid && StreamOrder.Terminal(Order(a, ev))
  {
    assert !IsRefusal(MALFORMED) && !IsRefusal(RESPONSE_TOO_LARGE);
  }

  /** The stream behind a refusal is complete. */
  lemma RefusalIsComplete(env: Env, evs: seq<Event>)
    requires ErrorsAreErrors(env) && Refuses(BufferedRun(Protocol(env), START, evs).fail)
    requires var b := BufferedRun(Protocol(env), START, Init(evs)); !b.done && b.fail.None?
    ensures StreamOrder.CompleteStream(StreamOrder.Kinds(evs))
  {
    assert evs != [];
    var init, ev := Init(evs), evs[|evs| - 1];
    assert evs == init + [ev];
    var a := BufferedRun(Protocol(env), START, init).state;
    BufferedLast(Protocol(env), START, evs);
    BufferedValidated(env, init);
    OnlyRefusalRefuses(env, a, ev);
    KindsPush(init, ev);
    OrderPush(StreamOrder.Kinds(init), StreamOrder.KindOf(ev.name));
    OrderAccepts(StreamOrder.Kinds(init), StreamOrder.KindOf(ev.name));
  }

  /** Replaying a stream that was buffered to its end fails, the byte budget aside, if and only if a bare
      id or retry record stands in it between a truncated tool input and the event that decides about
      that input. */
  lemma ReplayOfValidated(env: Env, a: Wires, evs: seq<Event>)
    requires Norm(env).normalize && Parse(Concat(Raws(evs))) == evs
    requires BufferedRun(Protocol(env), START, evs).done && BufferedRun(Protocol(env), START, evs).fail.None?
    requires var b := BufferedRun(Protocol(env), START, Init(evs)); !b.done && b.fail.None?
    ensures var v := ReplayBuffered(env, a, Concat(Raws(evs))).verdict;
      v.OverLimit? || (v.Broken? <==> exists k :: ToolJsonLockstep.BareWhileWaiting(env.tool, ToolJson.V_START, evs, k))
  {
    BufferedComplete(env, evs);
    NormIs(env);
    ReplayIsNormalized(env, a, evs);
    ValidatedReplay(env.tool, evs);
    ToolJsonLockstep.StrandsAt(env.tool, ToolJson.V_START, evs);
  }

  lemma ReplayIsNormalized(env: Env, a: Wires, evs: seq<Event>)
    requires Norm(env).normalize && Parse(Concat(Raws(evs))) == evs
    ensures ReplayBuffered(env, a, Concat(Raws(evs))).verdict
         == ReplayVerdictOf(ToolJson.NRun(env.tool, ToolJson.N_START, evs).verdict)
  {
    NormIs(env);
  }

  lemma NormIs(env: Env)
    requires Norm(env).normalize
    ensures env.validate && env.tool.normalize && Norm(env) == env.tool
  {
  }

  lemma ValidatedReplay(env: ToolJson.Env, evs: seq<Event>)
    requires env.normalize && ToolJson.VRun(env, ToolJson.V_START, evs).verdict.Accepted?
    ensures var v := ToolJson.NRun(env, ToolJson.N_START, evs).verdict;
      v.TooLarge? || v == if ToolJsonLockstep.SomeStrands(env, ToolJson.V_START, evs) then ToolJson.BadToolInput else ToolJson.Accepted
  {
    if !ToolJson.NRun(env, ToolJson.N_START, evs).verdict.TooLarge? {
      ToolJsonLockstep.Lockstep(env, ToolJson.V_START, ToolJson.N_START, evs);
    }
  }
}
