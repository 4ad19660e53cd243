/**
 Conservation and delivery for whole streams: from the records that were parsed off one stream to the
 records that a client parses off the bytes it receives.
 */
module ToolJsonStreams {
  import opened Common
  import opened SseParser
  import opened SseRoundTrip
  import SseFrame
  import opened ToolJson
  import opened ToolJsonConservation
  import opened ToolJsonDelivery

  /** Records of one parsed stream. */
  ghost predicate Parsed(max: int, fed: Bytes, eof: bool, evs: seq<Event>) {
    evs <= Feed(max, Fresh(false), fed, eof).events
  }

  lemma LaterReadable(max: int, fed: Bytes, eof: bool, evs: seq<Event>)
    requires Parsed(max, fed, eof, evs) && evs != []
    ensures forall ev | ev in evs[1..] :: Readable(ev)
    ensures !(BOM <= evs[0].raw) ==> Readable(evs[0])
    ensures Closes(true, evs[0]) || Closes(false, evs[0])
  {
    FreshFaithful();
    FeedCloses(max, false, Fresh(false), fed, eof);
    forall ev | ev in evs[1..] ensures Readable(ev) {
      var k :| 0 < k < |evs| && evs[k] == ev;
      ClosedFeed(true, evs[k]);
    }
    FirstCloses(max, fed, eof, evs);
    if !(BOM <= evs[0].raw) {
      RereadOne(evs[0]);
      ParseNoBom(evs[0].raw);
    }
  }

  // ------------------------------------------------------------- what the client parses ----

  /** The tokens of all records that a client gets from these bytes. */
  function ClientTokens(env: Env, b: Bytes): seq<Token> {
    EventTokens(env, Parse(b))
  }

  /** A client reads the first frame at the start of its stream, and every other one inside. */
  lemma ClientReads(env: Env, first: Event, rest: seq<Bytes>)
    requires Closes(true, first) || Closes(false, first)
    requires forall f | f in rest :: Single(f)
    ensures ClientTokens(env, Concat([first.raw] + rest)) == EventTokens(env, Parse(first.raw)) + Tokens(Reader(env), rest)
  {
    assert forall k | 0 <= k < |rest| :: rest[k] in rest;
    var es := Owns(rest);
    forall k | 0 <= k < |rest| ensures Closes(true, es[k]) {
      SingleCloses(rest[k]);
    }
    ParseFirst(first, es);
    assert ([first.raw] + rest)[1..] == rest;
    OwnTokens(env, rest);
    EventTokensSplit(env, Parse(first.raw), es);
  }

  lemma EventTokensSplit(env: Env, a: seq<Event>, b: seq<Event>)
    ensures EventTokens(env, a + b) == EventTokens(env, a) + EventTokens(env, b)
  {
  }

  lemma OwnTokens(env: Env, frames: seq<Bytes>)
    requires forall k | 0 <= k < |frames| :: Single(frames[k])
    ensures EventTokens(env, Owns(frames)) == Tokens(Reader(env), frames)
  {
    forall k | 0 <= k < |frames| ensures EventToken(env, Owns(frames)[k]) == FrameToken(env, frames[k]) {
      assert Feed(0, Fresh(true), frames[k], true).events == [Own(frames[k])];
    }
  }

  // ------------------------------------------------------------------ the frames of a run ----

  /** One record when read inside, and without a mark unless it is the bytes of a record. */
  predicate Known(all: seq<Bytes>, f: Bytes) {
    Single(f) && (BOM <= f ==> f in all)
  }

  ghost predicate AllKnown(all: seq<Bytes>, frames: seq<Bytes>) {
    forall f | f in frames :: Known(all, f)
  }

  /** All that may still be released is known. */
  ghost predicate StateKnown(env: Env, all: seq<Bytes>, n: NState) {
    && (n.held.Some? ==> AllKnown(all, n.held.value))
    && forall i | i in n.blocks :: BlockKnown(env, all, i, n.blocks[i])
  }

  ghost predicate BlockKnown(env: Env, all: seq<Bytes>, i: int, b: NBlock) {
    AllKnown(all, b.rawDeltas) && (b.input != "" ==> Joins(env, i, b.input))
  }

  lemma JoinedKnown(env: Env, all: seq<Bytes>, i: int, text: Bytes)
    requires EncoderFaithful(env) && Joins(env, i, text)
    ensures Known(all, DeltaFrame(env, i, text))
  {
    var data := env.encodeDelta(i, text);
    var f := DeltaFrame(env, i, text);
    assert EncodedFaithfully(env, i, text);
    SseFrame.FrameReadsInside("content_block_delta", data);
    assert f[0] == 'e' && BOM[0] != 'e';
  }

  lemma StepKnown(env: Env, all: seq<Bytes>, n: NState, ev: Event)
    requires env.normalize && EncoderFaithful(env) && StateKnown(env, all, n) && Known(all, ev.raw)
    ensures AllKnown(all, NStep(env, n, ev, ev.raw).frames) && StateKnown(env, all, NStep(env, n, ev, ev.raw).state)
  {
    var t := EventToken(env, ev);
    if n.held.Some? {
      HeldKnown(env, all, n, ev);
    } else if t.Delta? {
      DeltaKnown(env, all, n, ev);
    } else if IsStop(env, ev) {
      StopKnown(env, all, n, ev);
    } else if t.Boundary? {
      StartKnown(env, all, n, t.index);
    }
  }

  lemma HeldKnown(env: Env, all: seq<Bytes>, n: NState, ev: Event)
    requires env.normalize && StateKnown(env, all, n) && Known(all, ev.raw) && n.held.Some?
    ensures AllKnown(all, NStep(env, n, ev, ev.raw).frames) && StateKnown(env, all, NStep(env, n, ev, ev.raw).state)
  {
    assert AllKnown(all, n.held.value + [ev.raw]);
  }

  lemma StartKnown(env: Env, all: seq<Bytes>, n: NState, i: int)
    requires StateKnown(env, all, n)
    ensures var t := TakeBlock(n, i); StateKnown(env, all, t.(blocks := t.blocks[i := NBlock(false, "", [], 0)]))
  {
    forall j | j in n.blocks ensures BlockKnown(env, all, j, n.blocks[j]) {
    }
  }

  lemma DeltaKnown(env: Env, all: seq<Bytes>, n: NState, ev: Event)
    requires StateKnown(env, all, n) && EventToken(env, ev).Delta?
    requires EventToken(env, ev).text == "" ==> Known(all, ev.raw)
    ensures var t := EventToken(env, ev); StateKnown(env, all, NDelta(n, t.index, t.text, ev.raw))
  {
    var t := EventToken(env, ev);
    assert t.index in n.blocks ==> BlockKnown(env, all, t.index, n.blocks[t.index]);
    assert DecodesTo(env, ev.data, t.index, t.text);
    JoinsMore(env, t.index, Pending(n, t.index), t.text, ev.data);
    var after := NDelta(n, t.index, t.text, ev.raw);
    forall j | j in after.blocks ensures BlockKnown(env, all, j, after.blocks[j]) {
      assert j != t.index ==> BlockKnown(env, all, j, n.blocks[j]);
    }
  }

  lemma StopKnown(env: Env, all: seq<Bytes>, n: NState, ev: Event)
    requires env.normalize && EncoderFaithful(env) && StateKnown(env, all, n) && Known(all, ev.raw) && n.held.None? && IsStop(env, ev)
    ensures AllKnown(all, NStep(env, n, ev, ev.raw).frames) && StateKnown(env, all, NStep(env, n, ev, ev.raw).state)
  {
    var i := EventToken(env, ev).index;
    if i in n.blocks {
      assert BlockKnown(env, all, i, n.blocks[i]);
      if n.blocks[i].input != "" {
        JoinedKnown(env, all, i, n.blocks[i].input);
      }
    }
  }

  lemma {:induction false} RunKnown(env: Env, all: seq<Bytes>, n: NState, evs: seq<Event>)
    requires env.normalize && EncoderFaithful(env) && StateKnown(env, all, n) && forall ev | ev in evs :: Known(all, ev.raw)
    ensures AllKnown(all, NRun(env, n, evs).frames)
    decreases |evs|
  {
    if evs != [] {
      StepKnown(env, all, n, evs[0]);
      RunKnown(env, all, NStep(env, n, evs[0], evs[0].raw).state, evs[1..]);
    }
  }

  /** The frame that opens the output reads there as it was read, if it is the bytes of a record. */
  predicate OpensAlike(evs: seq<Event>, out: seq<Bytes>) {
    out != [] ==> forall ev | ev in evs && ev.raw == out[0] :: ReadsAlike(ev)
  }

  /** Records that came out of a parser, and are read later as they were. */
  ghost predicate Kin(env: Env, evs: seq<Event>) {
    forall ev | ev in evs :: (Closes(true, ev) || Closes(false, ev)) && Understood(env, Reader(env), ev) && Single(ev.raw)
  }

  /** A frame at the start of the output. */
  lemma OpenReads(env: Env, evs: seq<Event>, f: Bytes)
    requires Kin(env, evs) && Known(Raws(evs), f) && forall ev | ev in evs && ev.raw == f :: ReadsAlike(ev)
    ensures EventTokens(env, Parse(f)) == [Reader(env)(f)]
  {
    if BOM <= f {
      var k :| 0 <= k < |evs| && Raws(evs)[k] == f;
      assert evs[k] in evs && evs[k].raw == f;
      AlikeIff(evs[k]);
    } else {
      ParseNoBom(f);
      assert Feed(0, Fresh(true), f, true).events == [Own(f)];
    }
  }

  lemma TokensCons(read: Bytes -> Token, f: Bytes, rest: seq<Bytes>)
    ensures Tokens(read, [f] + rest) == [read(f)] + Tokens(read, rest)
  {
  }

  /** Frames of which only the first could be read differently. */
  lemma OutputReads(env: Env, evs: seq<Event>, out: seq<Bytes>)
    requires Kin(env, evs) && AllKnown(Raws(evs), out) && OpensAlike(evs, out)
    ensures ClientTokens(env, Concat(out)) == Tokens(Reader(env), out)
  {
    if out != [] {
      var f, rest := out[0], out[1..];
      assert f in out && Known(Raws(evs), f);
      OpenReads(env, evs, f);
      SingleCloses(f);
      assert forall g | g in rest :: g in out;
      ClientReads(env, Own(f), rest);
      TokensCons(Reader(env), f, rest);
      assert [f] + rest == out;
    }
  }

  // ----------------------------------------------------------------------- whole streams ----

  /** The first record of a stream may open with a mark that is lost when its bytes are read later. It
      can only matter for a fragment without text, whose own bytes are released with its block. */
  predicate FirstReadsLater(env: Env, first: Event) {
    BOM <= first.raw && EventToken(env, first).Delta? && EventToken(env, first).text == "" ==>
      Understood(env, Reader(env), first)
  }

  lemma AllKnownRaws(evs: seq<Event>)
    requires forall ev | ev in evs :: Single(ev.raw)
    ensures forall ev | ev in evs :: Known(Raws(evs), ev.raw)
  {
    forall ev | ev in evs ensures Known(Raws(evs), ev.raw) {
      var k :| 0 <= k < |evs| && evs[k] == ev;
      assert Raws(evs)[k] == ev.raw;
    }
  }

  /** The first record's step, from nothing. */
  lemma FirstStep(env: Env, first: Event)
    requires env.normalize && NStep(env, N_START, first, first.raw).verdict == Accepted
    ensures var o := NStep(env, N_START, first, first.raw);
      && o.state.held.None?
      && (EventToken(env, first).Delta? ==> o.frames == [])
      && (!EventToken(env, first).Delta? ==> o.frames == [first.raw] && forall i :: Pending(o.state, i) == "")
      && (forall i :: Dropped(env, N_START, first, i) == 0 && KeepsPlace(env, N_START, first, i))
  {
  }

  lemma FirstBlocks(env: Env, read: Bytes -> Token, first: Event)
    requires env.normalize && NStep(env, N_START, first, first.raw).verdict == Accepted
    requires EventToken(env, first).Delta? ==> EventToken(env, first).text != ""
    ensures var n := NStep(env, N_START, first, first.raw).state;
      BlocksOk(env, read, n) && forall all :: StateKnown(env, all, n)
  {
    var t := EventToken(env, first);
    if t.Delta? {
      DeltaBlocks(env, read, N_START, first, t.index, t.text);
      forall all ensures StateKnown(env, all, NStep(env, N_START, first, first.raw).state) {
        DeltaKnown(env, all, N_START, first);
      }
    }
  }

  /** The accounts after the first record, which is passed on as it is, or withheld. */
  lemma FirstKept(env: Env, read: Bytes -> Token, first: Event)
    requires env.normalize && NStep(env, N_START, first, first.raw).verdict == Accepted
    requires EventToken(env, first).Delta? ==> EventToken(env, first).text != ""
    ensures var t := EventToken(env, first);
      StartsKept(env, read, if t.Delta? then [] else [t], [t], NStep(env, N_START, first, first.raw).state)
  {
    var t := EventToken(env, first);
    var n := NStep(env, N_START, first, first.raw).state;
    var pre := if t.Delta? then [] else [t];
    FirstStep(env, first);
    FirstBlocks(env, read, first);
    forall i ensures Kept(env, read, pre, i, [t], [], n, 0, true) {
      TokenPush(i, [], t);
      assert [] + [t] == [t];
      assert Got(read, pre, Released([], n)) == pre;
      StepPending(env, N_START, first, i);
      EmptyPlus(Pending(n, i));
      EmptyPlus("");
    }
  }

  /** What a run conserves from its second event on, it conserves. */
  lemma ConservesAll(env: Env, evs: seq<Event>, sent: seq<Token>, received: seq<Token>)
    requires env.normalize && evs != [] && NStep(env, N_START, evs[0], evs[0].raw).verdict == Accepted
    requires Conserves(env, NStep(env, N_START, evs[0], evs[0].raw).state, evs[1..], sent, received)
    ensures Conserves(env, N_START, evs, sent, received)
  {
    FirstStep(env, evs[0]);
    var n := NStep(env, N_START, evs[0], evs[0].raw).state;
    forall i ensures TextConserved(env, N_START, evs, i, TextsOf(i, sent), TextsOf(i, received)) {
      assert TextConserved(env, n, evs[1..], i, TextsOf(i, sent), TextsOf(i, received));
    }
  }

  /** The first record is read like the others. */
  lemma PlainStream(env: Env, evs: seq<Event>)
    requires env.normalize && EncoderFaithful(env) && Kin(env, evs)
    requires NRun(env, N_START, evs).verdict == Accepted && Drained(NRun(env, N_START, evs).state)
    ensures Conserves(env, N_START, evs, EventTokens(env, evs), Tokens(Reader(env), NRun(env, N_START, evs).frames))
    ensures AllKnown(Raws(evs), NRun(env, N_START, evs).frames)
  {
    ReaderReads(env);
    StartKept(env, Reader(env));
    ConservationFrom(env, Reader(env), [], N_START, evs, []);
    EmptyPlus(EventTokens(env, evs));
    EmptyPlus(Tokens(Reader(env), NRun(env, N_START, evs).frames));
    AllKnownRaws(evs);
    RunKnown(env, Raws(evs), N_START, evs);
  }

  /** The first record is read on its own; all others are read inside. */
  lemma MarkedStream(env: Env, evs: seq<Event>)
    requires env.normalize && EncoderFaithful(env) && evs != [] && Kin(env, evs[1..])
    requires EventToken(env, evs[0]).Delta? ==> EventToken(env, evs[0]).text != ""
    requires NRun(env, N_START, evs).verdict == Accepted && Drained(NRun(env, N_START, evs).state)
    ensures var t := EventToken(env, evs[0]);
      var rest := NRun(env, NStep(env, N_START, evs[0], evs[0].raw).state, evs[1..]).frames;
      && NRun(env, N_START, evs).frames == (if t.Delta? then rest else [evs[0].raw] + rest)
      && AllKnown(Raws(evs[1..]), rest)
      && Conserves(env, N_START, evs, EventTokens(env, evs), (if t.Delta? then [] else [t]) + Tokens(Reader(env), rest))
  {
    var t := EventToken(env, evs[0]);
    var n := NStep(env, N_START, evs[0], evs[0].raw).state;
    var pre := if t.Delta? then [] else [t];
    FirstStep(env, evs[0]);
    FirstKept(env, Reader(env), evs[0]);
    FirstBlocks(env, Reader(env), evs[0]);
    ReaderReads(env);
    ConservationFrom(env, Reader(env), pre, n, evs[1..], [t]);
    AllKnownRaws(evs[1..]);
    RunKnown(env, Raws(evs[1..]), n, evs[1..]);
    assert EventTokens(env, evs) == [t] + EventTokens(env, evs[1..]);
    ConservesAll(env, evs, EventTokens(env, evs), Got(Reader(env), pre, NRun(env, n, evs[1..]).frames));
    EmptyPlus(NRun(env, n, evs[1..]).frames);
  }

  lemma PlainClient(env: Env, evs: seq<Event>)
    requires env.normalize && EncoderFaithful(env) && Kin(env, evs)
    requires NRun(env, N_START, evs).verdict == Accepted && Drained(NRun(env, N_START, evs).state)
    requires OpensAlike(evs, NRun(env, N_START, evs).frames)
    ensures Conserves(env, N_START, evs, EventTokens(env, evs), ClientTokens(env, Concat(NRun(env, N_START, evs).frames)))
  {
    PlainStream(env, evs);
    OutputReads(env, evs, NRun(env, N_START, evs).frames);
  }

  lemma MarkedClient(env: Env, evs: seq<Event>)
    requires env.normalize && EncoderFaithful(env) && evs != [] && Kin(env, evs[1..])
    requires Closes(true, evs[0]) || Closes(false, evs[0])
    requires EventToken(env, evs[0]).Delta? ==> EventToken(env, evs[0]).text != ""
    requires NRun(env, N_START, evs).verdict == Accepted && Drained(NRun(env, N_START, evs).state)
    requires OpensAlike(evs, NRun(env, N_START, evs).frames)
    ensures Conserves(env, N_START, evs, EventTokens(env, evs), ClientTokens(env, Concat(NRun(env, N_START, evs).frames)))
  {
    var t := EventToken(env, evs[0]);
    var rest := NRun(env, NStep(env, N_START, evs[0], evs[0].raw).state, evs[1..]).frames;
    MarkedStream(env, evs);
    if t.Delta? {
      EmptyPlus(Tokens(Reader(env), rest));
      FewerAlike(evs, rest);
      OutputReads(env, evs[1..], rest);
    } else {
      PassedReads(env, evs[0], Raws(evs[1..]), rest);
    }
  }

  lemma FewerAlike(evs: seq<Event>, out: seq<Bytes>)
    requires evs != [] && OpensAlike(evs, out)
    ensures OpensAlike(evs[1..], out)
  {
  }

  /** The first record, passed on, and what follows it. */
  lemma PassedReads(env: Env, first: Event, all: seq<Bytes>, rest: seq<Bytes>)
    requires (Closes(true, first) || Closes(false, first)) && ReadsAlike(first) && AllKnown(all, rest)
    ensures ClientTokens(env, Concat([first.raw] + rest)) == [EventToken(env, first)] + Tokens(Reader(env), rest)
  {
    AlikeIff(first);
    ClientReads(env, first, rest);
    assert EventTokens(env, [first]) == [EventToken(env, first)];
  }

  lemma LaterKin(env: Env, max: int, fed: Bytes, eof: bool, evs: seq<Event>)
    requires Parsed(max, fed, eof, evs) && evs != []
    ensures Kin(env, evs[1..]) && (Closes(true, evs[0]) || Closes(false, evs[0]))
    ensures !(BOM <= evs[0].raw) ==> Readable(evs[0])
  {
    FreshFaithful();
    FeedCloses(max, false, Fresh(false), fed, eof);
    LaterReadable(max, fed, eof, evs);
    forall ev | ev in evs[1..] ensures Closes(true, ev) {
      var k :| 0 < k < |evs| && evs[k] == ev;
    }
  }

  lemma KinOfStream(env: Env, max: int, fed: Bytes, eof: bool, evs: seq<Event>)
    requires Parsed(max, fed, eof, evs) && evs != []
    ensures Kin(env, evs[1..]) && (Closes(true, evs[0]) || Closes(false, evs[0]))
    ensures !(BOM <= evs[0].raw) || (EventToken(env, evs[0]).Delta? && Understood(env, Reader(env), evs[0])) ==> Kin(env, evs)
  {
    LaterKin(env, max, fed, eof, evs);
    assert evs == [evs[0]] + evs[1..];
  }

  /** The records of any parsed stream are conserved, down to what a client parses from the bytes it
      receives, if the record whose bytes come first is one that reads there as it was read. */
  lemma StreamConservation(env: Env, max: int, fed: Bytes, eof: bool, evs: seq<Event>)
    requires env.normalize && EncoderFaithful(env) && Parsed(max, fed, eof, evs)
    requires NRun(env, N_START, evs).verdict == Accepted && Drained(NRun(env, N_START, evs).state)
    requires OpensAlike(evs, NRun(env, N_START, evs).frames)
    requires evs != [] ==> FirstReadsLater(env, evs[0])
    ensures Conserves(env, N_START, evs, EventTokens(env, evs), ClientTokens(env, Concat(NRun(env, N_START, evs).frames)))
  {
    if evs == [] {
      PlainClient(env, evs);
    } else {
      KinOfStream(env, max, fed, eof, evs);
      if BOM <= evs[0].raw && !(EventToken(env, evs[0]).Delta? && EventToken(env, evs[0]).text == "") {
        MarkedClient(env, evs);
      } else {
        PlainClient(env, evs);
      }
    }
  }

  /** For the records of any parsed stream, in every run: a first record that is passed on comes first in
      the output, and what follows is complete; otherwise all of the output is. */
  lemma StreamDelivery(env: Env, max: int, fed: Bytes, eof: bool, evs: seq<Event>)
    requires env.normalize && EncoderFaithful(env) && Parsed(max, fed, eof, evs) && evs != []
    requires FirstReadsLater(env, evs[0])
    ensures var out := NRun(env, N_START, evs).frames;
      if BOM <= evs[0].raw && !EventToken(env, evs[0]).Delta? && out != [] then
        out[0] == evs[0].raw && AllComplete(env, Reader(env), evs, out[1..])
      else AllComplete(env, Reader(env), evs, out)
  {
    KinOfStream(env, max, fed, eof, evs);
    ReaderReads(env);
    if BOM <= evs[0].raw && !(EventToken(env, evs[0]).Delta? && EventToken(env, evs[0]).text == "") {
      MarkedDelivery(env, evs);
    } else {
      RunComplete(env, Reader(env), N_START, evs, [], []);
      EmptyPlus(evs);
      EmptyPlus(NRun(env, N_START, evs).frames);
    }
  }

  lemma MarkedDelivery(env: Env, evs: seq<Event>)
    requires env.normalize && Reads(env, Reader(env)) && evs != [] && Kin(env, evs[1..])
    requires EventToken(env, evs[0]).Delta? ==> EventToken(env, evs[0]).text != ""
    ensures var out := NRun(env, N_START, evs).frames;
      if !EventToken(env, evs[0]).Delta? && out != [] then
        out[0] == evs[0].raw && AllComplete(env, Reader(env), evs, out[1..])
      else AllComplete(env, Reader(env), evs, out)
  {
    var o := NStep(env, N_START, evs[0], evs[0].raw);
    if o.verdict == Accepted {
      FirstStep(env, evs[0]);
      FirstBlocks(env, Reader(env), evs[0]);
      RunComplete(env, Reader(env), o.state, evs[1..], [evs[0]], []);
      var rest := NRun(env, o.state, evs[1..]).frames;
      EmptyPlus(rest);
      assert ([evs[0].raw] + rest)[1..] == rest;
      assert [evs[0]] + evs[1..] == evs;
    }
  }
}
