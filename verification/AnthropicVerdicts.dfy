/**
 The verdicts of the Anthropic wire, told from the events alone: which streams go on, which are
 delivered, which are held as refusals, and what a failing event leaves with the client.
 */
module AnthropicVerdicts {
  import opened Common
  import opened Failures
  import opened SseParser
  import opened SseRoundTrip
  import opened Capture
  import opened CaptureTransparency
  import opened AnthropicWire
  import opened AnthropicCapture
  import opened StreamOrder
  import ToolJson
  import ToolJsonLockstep

  /** An event has data if it has a name, and a name if it has data; only a ping may be bare. */
  predicate Shaped(ev: Event) {
    (ev.name == "" ==> ev.data == "") && (ev.data == "" ==> ev.name == "" || ev.name == "ping")
  }

  /** No in-band error, and with validation on nothing but well-shaped events whose tool input is accepted. */
  ghost predicate Sound(env: Env, evs: seq<Event>) {
    && (forall ev | ev in evs :: ev.name != "error")
    && (env.validate ==> (forall ev | ev in evs :: Shaped(ev)) && ToolJson.VRun(env.tool, ToolJson.V_START, evs).verdict.Accepted?)
  }

  /** Every event of a sound stream that carries data carries JSON. */
  lemma {:induction false} SoundDecodes(env: ToolJson.Env, v: ToolJson.VState, evs: seq<Event>)
    requires ToolJson.VRun(env, v, evs).verdict.Accepted?
    ensures forall ev | ev in evs && ev.data != "" :: env.decode(ev.data).Some?
    decreases |evs|
  {
    if evs != [] {
      SoundDecodes(env, ToolJson.VStep(env, v, evs[0]).state, evs[1..]);
      assert evs == [evs[0]] + evs[1..];
    }
  }

  /** The last event that declares a stop reason declares a refusal. */
  ghost predicate DeclaresRefusal(env: Env, evs: seq<Event>) {
    exists k | 0 <= k < |evs| :: LastReason(env, evs, k) == Some("refusal")
  }

  /** The stop reason of the event at k, unless a later event declares one. */
  ghost function LastReason(env: Env, evs: seq<Event>, k: nat): Option<Bytes>
    requires k < |evs|
  {
    if exists j | k < j < |evs| :: env.stopReason(evs[j]).Some? then None else env.stopReason(evs[k])
  }

  lemma ReasonPush(env: Env, evs: seq<Event>, ev: Event)
    ensures DeclaresRefusal(env, evs + [ev])
      <==> if env.stopReason(ev).Some? then env.stopReason(ev).value == "refusal" else DeclaresRefusal(env, evs)
  {
    var all := evs + [ev];
    assert all[|evs|] == ev;
    assert LastReason(env, all, |evs|) == env.stopReason(ev);
    forall k | 0 <= k < |evs|
      ensures LastReason(env, all, k) == if env.stopReason(ev).Some? then None else LastReason(env, evs, k) {
      assert all[k] == evs[k];
      if env.stopReason(ev).None? {
        assert forall j | k < j < |all| && env.stopReason(all[j]).Some? :: j < |evs| && all[j] == evs[j];
        assert forall j | k < j < |evs| :: all[j] == evs[j];
      }
    }
  }

  // ------------------------------------------------------------------- one more event ----

  lemma ShapedIs(ev: Event)
    ensures ToolJsonLockstep.WellShaped(ev) <==> Shaped(ev)
  {
  }

  lemma RunAccepts(env: ToolJson.Env, v: ToolJson.VState, evs: seq<Event>, ev: Event)
    ensures ToolJson.VRun(env, v, evs + [ev]).verdict.Accepted? <==>
      ToolJson.VRun(env, v, evs).verdict.Accepted? && ToolJson.VStep(env, ToolJson.VRun(env, v, evs).state, ev).verdict.Accepted?
  {
    if ToolJson.VRun(env, v, evs).verdict.Accepted? {
      ToolJson.VRunPush(env, v, evs, ev);
    } else {
      RunFails(env, v, evs, [ev]);
    }
  }

  lemma {:induction false} RunFails(env: ToolJson.Env, v: ToolJson.VState, a: seq<Event>, b: seq<Event>)
    requires !ToolJson.VRun(env, v, a).verdict.Accepted?
    ensures !ToolJson.VRun(env, v, a + b).verdict.Accepted?
    decreases |a|
  {
    assert (a + b)[0] == a[0] && (a + b)[1..] == a[1..] + b;
    if ToolJson.VStep(env, v, a[0]).verdict.Accepted? {
      RunFails(env, ToolJson.VStep(env, v, a[0]).state, a[1..], b);
    }
  }

  lemma SoundPush(env: Env, evs: seq<Event>, ev: Event)
    ensures Sound(env, evs + [ev]) <==>
      && Sound(env, evs) && ev.name != "error"
      && (env.validate ==> Shaped(ev) && ToolJson.VStep(env.tool, ToolJson.VRun(env.tool, ToolJson.V_START, evs).state, ev).verdict.Accepted?)
  {
    RunAccepts(env.tool, ToolJson.V_START, evs, ev);
    forall e | e in evs ensures e in evs + [ev] {
    }
    assert ev in evs + [ev];
  }

  /** The checks of both paths, on the next event of a sound stream. */
  lemma ChecksNext(env: Env, a: Wires, evs: seq<Event>, ev: Event)
    requires Sound(env, evs)
    requires env.validate ==> ToolJson.VRun(env.tool, ToolJson.V_START, evs) == ToolJson.VOut(a.tool, ToolJson.Accepted)
    ensures Checked(env, a, ev).fail.None? <==> Sound(env, evs + [ev])
    ensures Checked(env, a, ev).fail.None? && env.validate ==>
      ToolJson.VRun(env.tool, ToolJson.V_START, evs + [ev]) == ToolJson.VOut(Checked(env, a, ev).state.tool, ToolJson.Accepted)
  {
    SoundPush(env, evs, ev);
    ShapedIs(ev);
    if env.validate {
      ToolJson.VRunPush(env.tool, ToolJson.V_START, evs, ev);
    }
  }

  // --------------------------------------------------------------------- before the commit ----

  /** What the wire knows of a stream that goes on. */
  ghost predicate Knows(env: Env, evs: seq<Event>, a: Wires) {
    && Sound(env, evs) && a.order == ORun(Kinds(evs)) && MessageStop !in Kinds(evs) && Opened(Kinds(evs))
    && (env.validate ==> ToolJson.VRun(env.tool, ToolJson.V_START, evs) == ToolJson.VOut(a.tool, ToolJson.Accepted))
    && (a.stop == "refusal" <==> DeclaresRefusal(env, evs))
    && (a.sawProgress <==> exists ev | ev in evs :: ev.name == "content_block_delta")
  }

  /** The stream is sound, in order and not at its end. */
  ghost predicate GoesOn(env: Env, evs: seq<Event>) {
    Sound(env, evs) && InOrder(evs) && Named(evs, "message_stop") == 0
  }

  /** The stream is a sound and complete message. */
  ghost predicate Whole(env: Env, evs: seq<Event>) {
    Sound(env, evs) && CompleteMessage(evs)
  }

  lemma NextOrder(evs: seq<Event>, ev: Event)
    requires MessageStop !in Kinds(evs) && Opened(Kinds(evs))
    ensures var v := OStep(ORun(Kinds(evs)), KindOf(ev.name));
      && v == ORun(Kinds(evs + [ev]))
      && (if ev.name == "message_stop" then !v.invalid && Terminal(v) <==> CompleteMessage(evs + [ev])
          else !Terminal(v) && (!v.invalid <==> InOrder(evs + [ev])) && Named(evs + [ev], "message_stop") == 0)
      && (ev.name == "message_stop" ==> (v.invalid <==> !Terminal(v)))
  {
    KindsPush(evs, ev);
    OrderPush(Kinds(evs), KindOf(ev.name));
    KindsByName(evs + [ev]);
    KindsByName(evs);
    RunIsOpened(Kinds(evs));
    StopIsNamed(ev.name);
    if ev.name == "message_stop" {
      TerminalIsComplete(Kinds(evs));
    } else {
      RunIsOpened(Kinds(evs + [ev]));
    }
  }

  lemma ProgressPush(evs: seq<Event>, ev: Event)
    ensures (exists e | e in evs + [ev] :: e.name == "content_block_delta")
      <==> (exists e | e in evs :: e.name == "content_block_delta") || ev.name == "content_block_delta"
  {
    assert ev in evs + [ev];
    forall e | e in evs ensures e in evs + [ev] {
    }
  }

  /** One event before the commit, by the checks, the order and the stop reason. */
  lemma BufferedIs(env: Env, a: Wires, ev: Event)
    ensures var o := OnBuffered(env, a, ev);
      var stop := Scrape(env, a.stop, ev);
      var c := Checked(env, a.(stop := stop), ev);
      var v := OStep(a.order, KindOf(ev.name));
      var passes, refused := c.fail.None? && !v.invalid, env.interceptRefusal && stop == "refusal";
      && (o.fail.None? && !o.done <==> passes && !Terminal(v))
      && (o.done <==> passes && Terminal(v) && !refused)
      && (passes && Terminal(v) && refused ==> o.fail == Some(REFUSAL_FALLBACK))
      && (ErrorsAreErrors(env) && Refuses(o.fail) ==> passes && Terminal(v) && refused)
      && (o.fail.None? ==> o.state.order == v && o.state.tool == c.state.tool && o.state.stop == stop)
      && (o.fail.None? ==> o.state.sawProgress == (a.sawProgress || ev.name == "content_block_delta"))
  {
    assert !IsRefusal(MALFORMED) && !IsRefusal(RESPONSE_TOO_LARGE);
  }

  /** What the order check says of the next event, in terms of whole streams. */
  lemma OrderSays(env: Env, evs: seq<Event>, ev: Event)
    requires Sound(env, evs) && MessageStop !in Kinds(evs) && Opened(Kinds(evs))
    ensures var v, all := OStep(ORun(Kinds(evs)), KindOf(ev.name)), evs + [ev];
      && (!v.invalid && Terminal(v) <==> CompleteMessage(all))
      && (!v.invalid && !Terminal(v) <==> InOrder(all) && Named(all, "message_stop") == 0)
      && (!v.invalid && !Terminal(v) ==> v == ORun(Kinds(all)) && MessageStop !in Kinds(all) && Opened(Kinds(all)))
  {
    NextOrder(evs, ev);
    KindsByName(evs + [ev]);
  }

  /** One event before the commit, judged by the stream that it makes. */
  lemma BufferedNext(env: Env, a: Wires, evs: seq<Event>, ev: Event)
    requires Knows(env, evs, a)
    ensures var o := OnBuffered(env, a, ev);
      var all := evs + [ev];
      && (o.done <==> Whole(env, all) && !(env.interceptRefusal && DeclaresRefusal(env, all)))
      && (o.fail.None? && !o.done <==> GoesOn(env, all))
      && (o.fail.None? && !o.done ==> Knows(env, all, o.state))
      && (Whole(env, all) && env.interceptRefusal && DeclaresRefusal(env, all) ==> o.fail == Some(REFUSAL_FALLBACK))
      && (ErrorsAreErrors(env) && Refuses(o.fail) ==> Whole(env, all) && env.interceptRefusal && DeclaresRefusal(env, all))
  {
    BufferedIs(env, a, ev);
    ChecksNext(env, a.(stop := Scrape(env, a.stop, ev)), evs, ev);
    ReasonPush(env, evs, ev);
    OrderSays(env, evs, ev);
    ProgressPush(evs, ev);
  }

  lemma KnowsStart(env: Env)
    ensures Knows(env, [], START) && GoesOn(env, [])
  {
    KindsByName([]);
    RunIsOpened([]);
  }

  /** What a longer stream keeps of a shorter one. */
  lemma InitGoesOn(env: Env, evs: seq<Event>)
    requires evs != [] && (GoesOn(env, evs) || Whole(env, evs))
    ensures GoesOn(env, Init(evs))
  {
    var init, ev := Init(evs), evs[|evs| - 1];
    assert evs == init + [ev];
    SoundPush(env, init, ev);
    KindsByName(evs);
    KindsByName(init);
    KindsPush(init, ev);
    OpenedPush(Kinds(init), KindOf(ev.name));
  }

  /** Before a commit a stream goes on exactly while it is sound, in order and without a message_stop, and the
      wire then knows whether it refuses, and whether it has content. */
  lemma {:induction false} BufferedGoesOn(env: Env, evs: seq<Event>)
    ensures var b := BufferedRun(Protocol(env), START, evs);
      && (!b.done && b.fail.None? <==> GoesOn(env, evs))
      && (!b.done && b.fail.None? ==> Knows(env, evs, b.state))
    decreases |evs|
  {
    if evs == [] {
      KnowsStart(env);
    } else {
      var init, ev := Init(evs), evs[|evs| - 1];
      assert evs == init + [ev];
      BufferedGoesOn(env, init);
      var b := BufferedRun(Protocol(env), START, init);
      if !b.done && b.fail.None? {
        BufferedNext(env, b.state, init, ev);
      } else if GoesOn(env, evs) {
        InitGoesOn(env, evs);
      }
    }
  }

  /** A sound and complete message is refused if and only if refusals are intercepted and the last stop reason
      that it declares is a refusal; otherwise it is done. */
  lemma WholeIsJudged(env: Env, evs: seq<Event>)
    requires Whole(env, evs)
    ensures var b := BufferedRun(Protocol(env), START, evs);
      if env.interceptRefusal && DeclaresRefusal(env, evs) then !b.done && b.fail == Some(REFUSAL_FALLBACK) else b.done && b.fail.None?
  {
    var init, ev := Init(evs), evs[|evs| - 1];
    assert evs == init + [ev];
    InitGoesOn(env, evs);
    BufferedGoesOn(env, init);
    BufferedNext(env, BufferedRun(Protocol(env), START, init).state, init, ev);
    BufferedLast(Protocol(env), START, evs);
    DoneIsClean(env, BufferedRun(Protocol(env), START, init).state, ev);
  }

  lemma DoneIsClean(env: Env, a: Wires, ev: Event)
    ensures OnBuffered(env, a, ev).done ==> OnBuffered(env, a, ev).fail.None?
  {
  }

  /** And nothing else is: the first event at which a stream is done, or refused, makes it a sound and complete
      message. */
  lemma OnlyWholeIsJudged(env: Env, evs: seq<Event>)
    requires var b := BufferedRun(Protocol(env), START, Init(evs)); !b.done && b.fail.None?
    ensures var b := BufferedRun(Protocol(env), START, evs);
      && (b.done <==> Whole(env, evs) && !(env.interceptRefusal && DeclaresRefusal(env, evs)))
      && (ErrorsAreErrors(env) ==> (Refuses(b.fail) <==> Whole(env, evs) && env.interceptRefusal && DeclaresRefusal(env, evs)))
  {
    if evs != [] {
      var init, ev := Init(evs), evs[|evs| - 1];
      assert evs == init + [ev];
      BufferedGoesOn(env, init);
      BufferedNext(env, BufferedRun(Protocol(env), START, init).state, init, ev);
      BufferedLast(Protocol(env), START, evs);
    }
  }

  /** A gated capture is committed only once it holds content. */
  lemma GatedHasContent(env: Env, s: Setup<Wires>, l: Ledger<Wires>)
    requires s.wire == Protocol(env) && s.start == START && CommittedAt(s, l)
    ensures GoesOn(env, l.buffered)
    ensures s.gated ==> exists ev | ev in l.buffered :: ev.name == "content_block_delta"
  {
    BufferedGoesOn(env, l.buffered);
  }

  /** The replay of these events raises no fault: as raw bytes, or read again and normalized. */
  ghost predicate ReplaysWhole(env: Env, evs: seq<Event>) {
    Norm(env).normalize ==> ToolJson.NRun(Norm(env), ToolJson.N_START, Parse(Concat(Raws(evs)))).verdict.Accepted?
  }

  lemma ReplayIsWhole(env: Env, a: Wires, evs: seq<Event>)
    ensures ReplaysWhole(env, evs) <==> ReplayBuffered(env, a, Concat(Raws(evs))).verdict.Whole?
  {
  }

  // ---------------------------------------------------------------------- after the commit ----

  /** The live path looks at order no more, but at everything else. */
  ghost predicate LiveKnows(env: Env, evs: seq<Event>, a: Wires) {
    && Sound(env, evs) && !a.order.sawStop
    && (env.validate ==> ToolJson.VRun(env.tool, ToolJson.V_START, evs) == ToolJson.VOut(a.tool, ToolJson.Accepted))
  }

  /** The normalizer accepts these events too, if they go through it. */
  predicate Passes(env: Env, n: ToolJson.NState, evs: seq<Event>) {
    env.streamToolDeltas || ToolJson.NRun(Norm(env), n, evs).verdict.Accepted?
  }

  /** One event after the commit, by the checks and the normalizer. */
  lemma LiveIs(env: Env, a: Wires, ev: Event)
    requires !a.order.sawStop
    ensures var o := OnLive(env, a, ev);
      var c := Checked(env, a.(stop := Scrape(env, a.stop, ev)), ev);
      && (o.fail.None? <==> c.fail.None? && Passes(env, a.norm, [ev]))
      && (o.fail.None? ==> o.state.tool == c.state.tool && (o.done <==> ev.name == "message_stop"))
      && (o.fail.None? && !o.done ==> !o.state.order.sawStop)
  {
    StopIsNamed(ev.name);
    ToolJson.NRunOne(Norm(env), a.norm, ev);
  }

  lemma LiveNext(env: Env, a: Wires, evs: seq<Event>, ev: Event)
    requires LiveKnows(env, evs, a)
    ensures var o := OnLive(env, a, ev);
      var all := evs + [ev];
      && (o.fail.None? ==> (o.done <==> ev.name == "message_stop"))
      && (o.fail.None? <==> Sound(env, all) && Passes(env, a.norm, [ev]))
      && (o.fail.None? && !o.done ==> LiveKnows(env, all, o.state))
  {
    LiveIs(env, a, ev);
    ChecksNext(env, a.(stop := Scrape(env, a.stop, ev)), evs, ev);
  }

  /** From where the normalizer stands, the rest passes if the whole does. */
  lemma PassesPush(env: Env, a: Wires, init: seq<Event>, ev: Event)
    requires var o := LiveRun(Protocol(env), a, init); !o.done && o.fail.None?
    ensures Passes(env, a.norm, init)
    ensures Passes(env, a.norm, init + [ev]) <==> Passes(env, LiveRun(Protocol(env), a, init).state.norm, [ev])
  {
    if !env.streamToolDeltas {
      InitRuns(Protocol(env), a, init);
      LiveIsNormalized(env, a, init);
      ToolJson.NRunSplit(Norm(env), a.norm, init, [ev]);
    }
  }

  lemma PassesInit(env: Env, n: ToolJson.NState, init: seq<Event>, ev: Event)
    requires Passes(env, n, init + [ev])
    ensures Passes(env, n, init)
  {
    ToolJson.NRunSplit(Norm(env), n, init, [ev]);
  }

  /** After a commit a stream goes on exactly while it is sound, from its first event, without a message_stop,
      and accepted by the normalizer if it goes through it. */
  lemma {:induction false} LiveGoesOn(env: Env, a: Wires, base: seq<Event>, live: seq<Event>)
    requires LiveKnows(env, base, a)
    ensures var o := LiveRun(Protocol(env), a, live);
      && (!o.done && o.fail.None? <==> Sound(env, base + live) && Named(live, "message_stop") == 0 && Passes(env, a.norm, live))
      && (!o.done && o.fail.None? ==> LiveKnows(env, base + live, o.state))
    decreases |live|
  {
    if live == [] {
      assert base + live == base;
    } else {
      var init, ev := Init(live), live[|live| - 1];
      assert base + live == (base + init) + [ev];
      LiveGoesOn(env, a, base, init);
      SoundPush(env, base + init, ev);
      var o := LiveRun(Protocol(env), a, init);
      if !o.done && o.fail.None? {
        assert init + [ev] == live;
        PassesPush(env, a, init, ev);
        LiveNext(env, o.state, base + init, ev);
      } else if Passes(env, a.norm, live) {
        assert init + [ev] == live;
        PassesInit(env, a.norm, init, ev);
      }
    }
  }

  lemma PrefixKnows(env: Env, s: Setup<Wires>, l: Ledger<Wires>)
    requires s.wire == Protocol(env) && s.start == START && CommittedAt(s, l)
    ensures LiveKnows(env, l.buffered, Prefix(s, l).state)
  {
    BufferedGoesOn(env, l.buffered);
    CommitKeepsOrder(env, s, l);
  }

  /** Whatever is delivered as complete passed every check, before the commit and after it. */
  lemma SuccessIsSound(env: Env, s: Setup<Wires>, l: Ledger<Wires>, atEof: bool)
    requires s.wire == Protocol(env) && s.start == START
    requires Ended(s, l, Result(true, None), atEof) && NothingPast(s, l)
    ensures Sound(env, l.buffered + l.live)
    ensures !l.committed ==> CompleteMessage(l.buffered) && !(env.interceptRefusal && DeclaresRefusal(env, l.buffered))
  {
    if l.committed {
      LiveSound(env, s, l);
    } else {
      OnlyWholeIsJudged(env, l.buffered);
      assert l.buffered + l.live == l.buffered;
    }
  }

  lemma LiveSound(env: Env, s: Setup<Wires>, l: Ledger<Wires>)
    requires s.wire == Protocol(env) && s.start == START && l.committed && LiveRecord(s, l) && NothingPast(s, l)
    requires LiveOf(s, l).fail.None?
    ensures Sound(env, l.buffered + l.live)
  {
    PrefixKnows(env, s, l);
    LiveRunSound(env, Prefix(s, l).state, l.buffered, l.live);
  }

  lemma LiveRunSound(env: Env, a: Wires, base: seq<Event>, live: seq<Event>)
    requires LiveKnows(env, base, a) && LiveRun(Protocol(env), a, live).fail.None?
    requires var o := LiveRun(Protocol(env), a, Init(live)); !o.done && o.fail.None?
    ensures Sound(env, base + live)
  {
    if live == [] {
      assert base + live == base;
    } else {
      var init, ev := Init(live), live[|live| - 1];
      LiveGoesOn(env, a, base, init);
      LiveNext(env, LiveRun(Protocol(env), a, init).state, base + init, ev);
      assert base + live == (base + init) + [ev];
    }
  }

  /** Nothing changes these events on their way, or the normalizer accepts them as they were read. */
  ghost predicate GetsAcross(env: Env, evs: seq<Event>) {
    env.streamToolDeltas || (FirstSurvives(evs) && ToolJson.NRun(Norm(env), ToolJson.N_START, evs).verdict.Accepted?)
  }

  lemma PrefixGetsAcross(env: Env, a: Wires, buffered: seq<Event>, live: seq<Event>, max: int, fed: Bytes, eof: bool)
    requires GetsAcross(env, buffered + live) && a.norm == ToolJson.N_START
    requires buffered <= Feed(max, Fresh(false), fed, eof).events
    ensures var p := ReplayPrefix(env, a, Concat(Raws(buffered)));
      p.verdict.Whole? && Passes(env, p.state.norm, live)
  {
    if !env.streamToolDeltas {
      BufferReads(max, fed, eof, buffered);
      ToolJson.NRunSplit(Norm(env), ToolJson.N_START, buffered, live);
    }
  }

  lemma LastEvent(a: seq<Event>, b: seq<Event>)
    requires a + b != [] && (a + b)[|a + b| - 1].name == "message_stop" && Named(a, "message_stop") == 0
    ensures b != [] && (a + b)[|a + b| - 1] == b[|b| - 1]
  {
    assert b == [] ==> a + b == a;
  }

  /** A committed capture of a sound stream that ends with a message_stop, and gets across, is done. */
  lemma LiveIsDone(env: Env, s: Setup<Wires>, l: Ledger<Wires>, max: int, fed: Bytes, eof: bool)
    requires s.wire == Protocol(env) && s.start == START && s.room.None? && CommittedAt(s, l) && NothingPast(s, l)
    requires l.buffered <= Feed(max, Fresh(false), fed, eof).events
    requires var evs := l.buffered + l.live;
      Sound(env, evs) && GetsAcross(env, evs) && evs != [] && evs[|evs| - 1].name == "message_stop"
    ensures Complete(s, Prefix(s, l)) && LiveOf(s, l).done && LiveOf(s, l).fail.None?
  {
    BufferedGoesOn(env, l.buffered);
    BufferedValidated(env, l.buffered);
    PrefixKnows(env, s, l);
    PrefixGetsAcross(env, l.atCommit, l.buffered, l.live, max, fed, eof);
    LastEvent(l.buffered, l.live);
    StopEnds(env, Prefix(s, l).state, l.buffered, l.live);
  }

  lemma StopEnds(env: Env, a: Wires, base: seq<Event>, live: seq<Event>)
    requires LiveKnows(env, base, a) && Sound(env, base + live) && Passes(env, a.norm, live)
    requires live != [] && live[|live| - 1].name == "message_stop"
    requires var o := LiveRun(Protocol(env), a, Init(live)); !o.done && o.fail.None?
    ensures LiveRun(Protocol(env), a, live).done && LiveRun(Protocol(env), a, live).fail.None?
  {
    var init, ev := Init(live), live[|live| - 1];
    assert live == init + [ev] && base + live == (base + init) + [ev];
    LiveGoesOn(env, a, base, init);
    PassesPush(env, a, init, ev);
    LiveNext(env, LiveRun(Protocol(env), a, init).state, base + init, ev);
    LastLive(Protocol(env), a, live);
  }

  // ------------------------------------------------------------------ what a failing event is ----

  /** Tool input that no longer fits the budget. */
  predicate Overflows(env: Env, tool: ToolJson.VState, ev: Event) {
    env.validate && Shaped(ev) && ToolJson.VStep(env.tool, tool, ev).verdict.TooLarge?
  }

  /** An in-band error fails under its own classification; any other event as too large, if its tool input is,
      as a refusal, if it completes one, and else as malformed, which may clear on a new attempt. */
  lemma FaultIs(env: Env, a: Wires, ev: Event)
    ensures var o := OnBuffered(env, a, ev);
      o.fail.Some? ==>
        if ev.name == "error" && (env.validate ==> Shaped(ev)) then o.fail == Some(Untold(env.classify(ev.data)))
        else if Overflows(env, a.tool, ev) then !o.fail.value.transient && o.fail.value.code == "response_too_large"
        else if IsRefusal(o.fail.value) then ev.name == "message_stop" || a.order.sawStop
        else o.fail.value.transient && o.fail.value.code == "malformed_sse"
    ensures var o := OnLive(env, a, ev);
      o.fail.Some? && ev.name != "error" ==>
        if Overflows(env, a.tool, ev) || (Checked(env, a, ev).fail.None? && ToolJson.NStep(Norm(env), a.norm, ev, ev.raw).verdict.TooLarge?) then
          !o.fail.value.transient && o.fail.value.code == "response_too_large"
        else o.fail.value.transient && o.fail.value.code == "malformed_sse"
  {
    ShapedIs(ev);
    StopIsNamed(ev.name);
  }

  // ----------------------------------------------------------------------- in-band errors ----

  /** An in-band error that no new attempt can clear. */
  predicate FinalError(env: Env, ev: Event) {
    ev.name == "error" && (env.validate ==> Shaped(ev)) && !env.classify(ev.data).transient
  }

  lemma LiveFault(env: Env, a: Wires, ev: Event)
    ensures var o := OnLive(env, a, ev);
      o.fail.Some? ==> (o.fail.value.delivered <==> FinalError(env, ev)) && o.frames == if FinalError(env, ev) then [ev.raw] else []
  {
    ShapedIs(ev);
  }

  /** After a commit, the event that fails a capture is delivered as its own frame, the last one the client
      gets, if and only if it is such an error; of any other the client gets nothing. */
  lemma ErrorsTold(env: Env, s: Setup<Wires>, l: Ledger<Wires>)
    requires s.wire == Protocol(env) && l.committed && LiveRecord(s, l) && Complete(s, Prefix(s, l)) && NothingPast(s, l)
    requires LiveOf(s, l).fail.Some?
    ensures l.live != []
    ensures var last := l.live[|l.live| - 1];
      && (LiveOf(s, l).fail.value.delivered <==> FinalError(env, last))
      && LiveOf(s, l).frames == LiveRun(s.wire, Prefix(s, l).state, Init(l.live)).frames + if FinalError(env, last) then [last.raw] else []
  {
    var a := Prefix(s, l).state;
    assert LiveRun(s.wire, a, []).fail.None?;
    LastLive(s.wire, a, l.live);
    LiveFault(env, LiveRun(s.wire, a, Init(l.live)).state, l.live[|l.live| - 1]);
  }

  lemma OwnErrors(env: Env)
    ensures DeliversOwn(Protocol(env))
  {
    forall a: Wires, ev: Event ensures OwnFrame(Protocol(env).live(a, ev), ev) {
      LiveFault(env, a, ev);
    }
  }
}
