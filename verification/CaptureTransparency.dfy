/** What the client of a capture receives, whenever and however the commit happened. */
module CaptureTransparency {
  import opened Common
  import opened Failures
  import opened SseParser
  import opened SseRoundTrip
  import opened Capture

  /** After a commit the protocol forwards the very bytes of an event, or ends the stream at it. */
  ghost predicate RawLive<W(!new)>(wire: Wire<W>) {
    forall w: W, ev: Event :: RawFrames(wire.live(w, ev), ev)
  }

  predicate RawFrames<W>(o: LOut<W>, ev: Event) {
    o.frames == [ev.raw] || (o.frames == [] && o.fail.Some?)
  }

  /** Replaying this buffer at a commit writes the very bytes of it. */
  ghost predicate RawPrefix<W(!new)>(wire: Wire<W>, b: Bytes) {
    forall w: W :: Concat(wire.replayPrefix(w, b).frames) == b
  }

  /** Replaying this buffer at its end writes the very bytes of it. */
  ghost predicate RawWhole<W(!new)>(wire: Wire<W>, b: Bytes) {
    forall w: W :: Concat(wire.replayBuffered(w, b).frames) == b
  }

  lemma RawsSplit(a: seq<Event>, b: seq<Event>)
    ensures Raws(a + b) == Raws(a) + Raws(b)
    ensures Concat(Raws(a + b)) == Concat(Raws(a)) + Concat(Raws(b))
  {
    assert Raws(a + b) == Raws(a) + Raws(b);
    ConcatSplit(Raws(a), Raws(b));
  }

  lemma {:induction false} LiveBytes<W(!new)>(wire: Wire<W>, w: W, evs: seq<Event>)
    requires RawLive(wire)
    requires !LiveRun(wire, w, Init(evs)).done && LiveRun(wire, w, Init(evs)).fail.None?
    ensures var o := LiveRun(wire, w, evs);
      Concat(o.frames) == Concat(Raws(evs)) || (o.fail.Some? && Concat(o.frames) == Concat(Raws(Init(evs))))
  {
    if evs != [] {
      var init, ev := Init(evs), evs[|evs| - 1];
      assert evs == init + [ev];
      var before := LiveRun(wire, w, init);
      LiveBytes(wire, w, init);
      RawsSplit(init, [ev]);
      assert Raws([ev]) == [ev.raw];
      ConcatOne(ev.raw);
      var o := wire.live(before.state, ev);
      assert RawFrames(o, ev);
      ConcatSplit(before.frames, o.frames);
      assert Concat(Raws(init)) + "" == Concat(Raws(init));
    }
  }

  lemma InitPrefix(a: seq<Event>, b: seq<Event>)
    ensures Concat(Raws(a)) + Concat(Raws(Init(b))) <= Concat(Raws(a + b))
    ensures Concat(Raws(a)) <= Concat(Raws(a + b))
  {
    RawsSplit(a, b);
    if b != [] {
      var last := b[|b| - 1..];
      assert b == Init(b) + last;
      RawsSplit(Init(b), last);
      Assoc(Concat(Raws(a)), Concat(Raws(Init(b))), Concat(Raws(last)));
    }
  }

  /** On a byte-exact protocol, whenever the commit happened and wherever the run ended, the client has
      received, keepalives aside, the raw bytes of the events that were looked at, in order: all of
      them if the capture succeeded, and a prefix of them in any case. */
  lemma Transparent<W(!new)>(s: Setup<W>, l: Ledger<W>, res: Result, atEof: bool)
    requires Ended(s, l, res, atEof) && NothingPast(s, l)
    requires RawLive(s.wire)
    requires if l.committed then RawPrefix(s.wire, Concat(Raws(l.buffered))) else RawWhole(s.wire, Concat(Raws(l.buffered)))
    ensures res.wrote && res.fail.None? ==> Sent(l.trace) == Concat(Raws(l.buffered + l.live))
    ensures Sent(l.trace) <= Concat(Raws(l.buffered + l.live))
  {
    var b := Concat(Raws(l.buffered));
    InitPrefix(l.buffered, l.live);
    if l.committed {
      assert Concat(Prefix(s, l).frames) == b;
      LiveBytes(s.wire, Prefix(s, l).state, l.live);
      RawsSplit(l.buffered, l.live);
      assert Written(s.room, b) + "" == Written(s.room, b);
    } else if res.wrote {
      BufferedBytes(s, l, res.fail);
      assert l.buffered + l.live == l.buffered;
    }
  }

  /** What a protocol that forwards raw bytes has sent when its last live event is done with. */
  lemma LastBytes<W(!new)>(s: Setup<W>, l: Ledger<W>)
    requires RawLive(s.wire)
    requires l.committed && LiveRecord(s, l) && Complete(s, Prefix(s, l)) && NothingPast(s, l) && l.live != []
    ensures var o := s.wire.live(LiveRun(s.wire, Prefix(s, l).state, Init(l.live)).state, l.live[|l.live| - 1]);
      && Sent(l.trace) == Concat(Prefix(s, l).frames) + (Concat(Raws(Init(l.live))) + Concat(o.frames))
      && LiveOf(s, l).fail == o.fail
  {
    var w, init := Prefix(s, l).state, Init(l.live);
    var before := LiveRun(s.wire, w, init);
    var o := s.wire.live(before.state, l.live[|l.live| - 1]);
    LastLive(s.wire, w, l.live);
    InitRuns(s.wire, w, init);
    LiveBytes(s.wire, w, init);
    ConcatSplit(before.frames, o.frames);
  }

  lemma InitRuns<W>(wire: Wire<W>, w: W, evs: seq<Event>)
    requires !LiveRun(wire, w, evs).done && LiveRun(wire, w, evs).fail.None?
    ensures !LiveRun(wire, w, Init(evs)).done && LiveRun(wire, w, Init(evs)).fail.None?
  {
  }

  /** All but the last event, and its bytes. */
  lemma AndLast(evs: seq<Event>)
    requires evs != []
    ensures Concat(Raws(evs)) == Concat(Raws(Init(evs))) + evs[|evs| - 1].raw
  {
    var last := evs[|evs| - 1];
    assert evs == Init(evs) + [last];
    RawsSplit(Init(evs), [last]);
    assert Raws([last]) == [last.raw];
    ConcatOne(last.raw);
  }

  lemma BufferedBytes<W(!new)>(s: Setup<W>, l: Ledger<W>, fail: Option<Failure>)
    requires BufferedRecord(s, l, fail) && RawWhole(s.wire, Concat(Raws(l.buffered)))
    ensures Sent(l.trace) == Written(s.room, Concat(Raws(l.buffered)))
    ensures fail.None? ==> Sent(l.trace) == Concat(Raws(l.buffered))
  {
    TwoWrites(false, Written(s.room, Concat(Raws(l.buffered))));
  }

  // ------------------------------------------------------------------ the last event ----

  lemma BufferedLast<W>(wire: Wire<W>, w: W, evs: seq<Event>)
    requires evs != []
    requires var o := BufferedRun(wire, w, Init(evs)); !o.done && o.fail.None?
    ensures BufferedRun(wire, w, evs) == wire.buffered(BufferedRun(wire, w, Init(evs)).state, evs[|evs| - 1])
  {
    var init := evs[..|evs| - 1];
    assert Init(evs) == init;
  }

  lemma LastOfJoin(a: seq<Event>, b: seq<Event>)
    ensures b != [] ==> (a + b)[|a + b| - 1] == b[|b| - 1]
    ensures b == [] ==> a + b == a
  {
  }
}
