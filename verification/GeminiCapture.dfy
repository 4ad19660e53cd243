/** Whole captures of a Gemini stream (gemini.go): byte-exact, and complete only when every candidate is. */
module GeminiCapture {
  import opened Common
  import opened Failures
  import opened SseParser
  import opened SseRoundTrip
  import opened Capture
  import opened CaptureTransparency
  import opened CaptureBeats
  import G = GeminiWire

  function OnBuffered(env: G.Env, g: G.State, ev: Event): BOut<G.State> {
    var o := G.Ingest(env, g, ev);
    BOut(o.state, false, o.fail)
  }

  /** A terminal upstream error is delivered as it came; a fault that may clear is not. */
  function OnLive(env: G.Env, g: G.State, ev: Event): LOut<G.State> {
    var o := G.Ingest(env, g, ev);
    match o.fail
    case None => LOut(o.state, [ev.raw], false, None)
    case Some(f) =>
      if f.transient then LOut(o.state, [], false, Some(f))
      else LOut(o.state, [ev.raw], false, Some(f.(delivered := true)))
  }

  function Protocol(env: G.Env): Wire<G.State> {
    Wire(
      (g: G.State, ev: Event) => OnBuffered(env, g, ev),
      (g: G.State, ev: Event) => OnLive(env, g, ev),
      (g: G.State, b: Bytes) => ROut(g, [b], Whole),
      (g: G.State, b: Bytes) => ROut(g, [b], Whole),
      (g: G.State) => G.CompleteOnEof(g),
      (g: G.State) => g.sawContent,
      COMMENT)
  }

  /** Whatever the schedule and wherever it ended, the client has a prefix of the raw bytes of the
      events that were looked at, and on success all of them. */
  lemma ByteExact(env: G.Env, s: Setup<G.State>, l: Ledger<G.State>, res: Result, atEof: bool)
    requires s.wire == Protocol(env) && Ended(s, l, res, atEof) && NothingPast(s, l)
    ensures res.wrote && res.fail.None? ==> Sent(l.trace) == Concat(Raws(l.buffered + l.live))
    ensures Sent(l.trace) <= Concat(Raws(l.buffered + l.live))
  {
    ConcatOne(Concat(Raws(l.buffered)));
    forall g: G.State, ev: Event ensures RawFrames(Protocol(env).live(g, ev), ev) {
      assert RawFrames(OnLive(env, g, ev), ev);
    }
    Transparent(s, l, res, atEof);
  }

  lemma RawProtocol(env: G.Env, b: Bytes)
    ensures RawLive(Protocol(env)) && RawPrefix(Protocol(env), b)
  {
    ConcatOne(b);
    forall g: G.State, ev: Event ensures RawFrames(Protocol(env).live(g, ev), ev) {
      assert RawFrames(OnLive(env, g, ev), ev);
    }
  }

  /** A client reads the records it was sent from all the bytes, keepalives among them, if and only if the
      first record reads alike where it stands. */
  lemma KeepalivesUnheard(env: G.Env, s: Setup<G.State>, l: Ledger<G.State>, max: int, fed: Bytes, eof: bool)
    requires s.wire == Protocol(env) && l.committed && LiveRecord(s, l) && Complete(s, Prefix(s, l)) && NothingPast(s, l)
    requires l.buffered + l.live <= Feed(max, Fresh(false), fed, eof).events
    ensures Told(s, l) == l.live || (LiveOf(s, l).fail.Some? && Told(s, l) == Init(l.live))
    ensures Parse(All(l.trace)) == l.buffered + Told(s, l) <==> OpensWell(l.trace, l.buffered, Told(s, l))
  {
    RawProtocol(env, Concat(Raws(l.buffered)));
    CommentIsBeat();
    CommentRead(s, l, max, fed, eof);
  }

  // -------------------------------------------------------------------- in-band errors ----

  /** An error that the upstream reports by itself, and that no new attempt can clear. */
  predicate FinalError(env: G.Env, ev: Event) {
    && ev.data != "" && env.decode(ev.data).Some? && (ev.name == "error" || env.decode(ev.data).value.hasError)
    && !env.classify(ev.data).transient
  }

  lemma LiveFault(env: G.Env, g: G.State, ev: Event)
    ensures var o := OnLive(env, g, ev);
      o.fail.Some? ==> (o.fail.value.delivered <==> FinalError(env, ev)) && o.frames == if FinalError(env, ev) then [ev.raw] else []
  {
    if G.Ingest(env, g, ev).fail.Some? && ev.data != "" && env.decode(ev.data).Some? {
      var h := g.(chunk := g.chunk + 1);
      VisitFaults(h, env.decode(ev.data).value.candidates, |env.decode(ev.data).value.candidates|);
    }
  }

  lemma {:induction false} VisitFaults(g: G.State, cs: seq<Option<G.Candidate>>, k: nat)
    requires k <= |cs|
    ensures G.Visits(g, cs, k).fail.Some? ==> G.Visits(g, cs, k).fail == Some(MALFORMED)
  {
    if k > 0 {
      VisitFaults(g, cs, k - 1);
    }
  }

  /** After a commit, the event that fails a capture is delivered as its own frame, the last one the client
      gets, if and only if it is an error of the upstream's own that no new attempt can clear. */
  lemma ErrorsTold(env: G.Env, s: Setup<G.State>, l: Ledger<G.State>)
    requires s.wire == Protocol(env) && l.committed && LiveRecord(s, l) && Complete(s, Prefix(s, l)) && NothingPast(s, l)
    requires LiveOf(s, l).fail.Some?
    ensures l.live != []
    ensures var told := FinalError(env, l.live[|l.live| - 1]);
      && (LiveOf(s, l).fail.value.delivered <==> told)
      && Sent(l.trace) == Concat(Raws(l.buffered + if told then l.live else Init(l.live)))
  {
    assert LiveRun(s.wire, Prefix(s, l).state, []).fail.None?;
    var last := l.live[|l.live| - 1];
    RawProtocol(env, Concat(Raws(l.buffered)));
    LastBytes(s, l);
    LiveFault(env, LiveRun(s.wire, Prefix(s, l).state, Init(l.live)).state, last);
    AndLast(l.live);
    ConcatOne(last.raw);
    EmptyPlus(Concat(Raws(Init(l.live))));
    ConcatOne(Concat(Raws(l.buffered)));
    RawsSplit(l.buffered, l.live);
    RawsSplit(l.buffered, Init(l.live));
  }

  lemma OwnErrors(env: G.Env)
    ensures DeliversOwn(Protocol(env))
  {
    forall g: G.State, ev: Event
      ensures OwnFrame(Protocol(env).live(g, ev), ev)
      ensures OnBuffered(env, g, ev).fail.Some? ==> !OnBuffered(env, g, ev).fail.value.delivered {
      LiveFault(env, g, ev);
      BufferedFault(env, g, ev);
    }
  }

  lemma BufferedFault(env: G.Env, g: G.State, ev: Event)
    ensures OnBuffered(env, g, ev).fail.Some? ==> !OnBuffered(env, g, ev).fail.value.delivered
  {
    if ev.data != "" && env.decode(ev.data).Some? {
      var h := g.(chunk := g.chunk + 1);
      VisitFaults(h, env.decode(ev.data).value.candidates, |env.decode(ev.data).value.candidates|);
    }
  }

  // ---------------------------------------------------------------------- completion ----

  lemma {:induction false} RunJoin(env: G.Env, g: G.State, a: seq<Event>, b: seq<Event>)
    ensures G.Run(env, g, a + b) == G.Run(env, G.Run(env, g, a), b)
    decreases |a|
  {
    if a == [] {
      assert a + b == b;
    } else {
      assert (a + b)[0] == a[0] && (a + b)[1..] == a[1..] + b;
      RunJoin(env, G.Ingest(env, g, a[0]).state, a[1..], b);
    }
  }

  lemma {:induction false} BufferedIsRun(env: G.Env, g: G.State, evs: seq<Event>)
    requires BufferedRun(Protocol(env), g, evs).fail.None?
    ensures BufferedRun(Protocol(env), g, evs) == BOut(G.Run(env, g, evs), false, None)
    decreases |evs|
  {
    if evs != [] {
      var init, ev := Init(evs), evs[|evs| - 1];
      assert evs == init + [ev];
      BufferedIsRun(env, g, init);
      G.RunPush(env, g, init, ev);
    }
  }

  lemma {:induction false} LiveIsRun(env: G.Env, g: G.State, evs: seq<Event>)
    requires LiveRun(Protocol(env), g, evs).fail.None?
    ensures var o := LiveRun(Protocol(env), g, evs); o.state == G.Run(env, g, evs) && !o.done
    decreases |evs|
  {
    if evs != [] {
      var init, ev := Init(evs), evs[|evs| - 1];
      assert evs == init + [ev];
      LiveIsRun(env, g, init);
      G.RunPush(env, g, init, ev);
    }
  }

  /** A capture succeeds only at a clean end of the input between frames, and only if its events answer
      the request; where the commit fell among them makes no difference. */
  lemma SuccessIsComplete(env: G.Env, count: int, s: Setup<G.State>, l: Ledger<G.State>, atEof: bool)
    requires count >= 1 && s.wire == Protocol(env) && s.start == G.Start(count)
    requires Ended(s, l, Result(true, None), atEof)
    ensures atEof && G.Answered(env, count, l.buffered + l.live)
  {
    var g := G.Start(count);
    BufferedIsRun(env, g, l.buffered);
    if l.committed {
      LiveIsRun(env, Prefix(s, l).state, l.live);
      RunJoin(env, g, l.buffered, l.live);
    } else {
      assert l.buffered + l.live == l.buffered;
    }
    G.Completion(env, count, l.buffered + l.live);
  }

  /** A capture whose last event failed has met a fault. */
  lemma BufferedFails(env: G.Env, g: G.State, evs: seq<Event>)
    requires var b := BufferedRun(Protocol(env), g, Init(evs)); !b.done && b.fail.None?
    ensures BufferedRun(Protocol(env), g, evs).fail.Some? ==> G.Run(env, g, evs).failed
  {
    if evs != [] {
      var init, ev := Init(evs), evs[|evs| - 1];
      assert evs == init + [ev];
      BufferedIsRun(env, g, init);
      G.RunPush(env, g, init, ev);
    }
  }

  lemma LiveFails(env: G.Env, g: G.State, evs: seq<Event>)
    requires var o := LiveRun(Protocol(env), g, Init(evs)); !o.done && o.fail.None?
    ensures LiveRun(Protocol(env), g, evs).fail.Some? ==> G.Run(env, g, evs).failed
  {
    if evs != [] {
      var init, ev := Init(evs), evs[|evs| - 1];
      assert evs == init + [ev];
      LiveIsRun(env, g, init);
      G.RunPush(env, g, init, ev);
    }
  }

  /** No event fails a capture whose events answer the request; and if it goes on, it is complete. */
  lemma AnsweredIsComplete(env: G.Env, count: int, s: Setup<G.State>, l: Ledger<G.State>)
    requires count >= 1 && s.wire == Protocol(env) && s.start == G.Start(count) && NothingPast(s, l)
    requires l.committed ==> CommittedAt(s, l)
    requires !l.committed ==> l.live == []
    requires G.Answered(env, count, l.buffered + l.live)
    ensures BufferedRun(s.wire, s.start, l.buffered).fail.None?
    ensures l.committed ==> LiveOf(s, l).fail.None?
    ensures Running(s, l) ==> s.wire.completeOnEof(l.state)
  {
    var g := G.Start(count);
    G.RunTells(env, count, l.buffered + l.live);
    G.Completion(env, count, l.buffered + l.live);
    RunJoin(env, g, l.buffered, l.live);
    BufferedFails(env, g, l.buffered);
    if l.committed {
      BufferedIsRun(env, g, l.buffered);
      LiveFails(env, Prefix(s, l).state, l.live);
      if LiveOf(s, l).fail.None? {
        LiveIsRun(env, Prefix(s, l).state, l.live);
      }
    } else {
      BufferedIsRun(env, g, l.buffered);
    }
  }
}
