/** Two streams that pass every check and still lose or reorder tool input, as the conditions of the
    conservation theorem say they may. */
module ToolJsonExamples {
  import opened Common
  import opened SseParser
  import SseRoundTrip
  import SseFrame
  import StreamOrder
  import opened ToolJson
  import opened ToolJsonConservation

  function DeltaPayload(i: int, text: Bytes): Payload {
    NO_PAYLOAD.(typ := "content_block_delta", deltaType := "input_json_delta", index := i, partialJson := text)
  }

  /** A decoder: the two tool blocks' fragments follow the digit of their block, and one letter stands
      for each other event. */
  function Decode(data: Bytes): Option<Payload> {
    if data == "" then None
    else if data[0] == '0' then Fragment(0, data[1..])
    else if data[0] == '1' then Fragment(1, data[1..])
    else if |data| > 1 then None
    else match data[0]
      case 'b' => Some(NO_PAYLOAD.(typ := "message_start"))
      case 's' => Some(NO_PAYLOAD.(typ := "content_block_start", blockType := "tool_use"))
      case 't' => Some(NO_PAYLOAD.(typ := "content_block_start", blockType := "tool_use", index := 1))
      case 'p' => Some(NO_PAYLOAD.(typ := "content_block_stop"))
      case 'q' => Some(NO_PAYLOAD.(typ := "content_block_stop", index := 1))
      case 'l' => Some(NO_PAYLOAD.(typ := "message_delta", stopReason := "max_tokens"))
      case 'e' => Some(NO_PAYLOAD.(typ := "message_stop"))
      case _ => None
  }

  function Fragment(i: int, text: Bytes): Option<Payload> {
    if Plain(text) then Some(DeltaPayload(i, text)) else None
  }

  function Encode(i: int, text: Bytes): Bytes {
    [if i == 0 then '0' else '1'] + text
  }

  const ENV := Env(Decode, (s: Bytes) => s == "{}", Encode, 1_000_000, true)

  function Ev(name: Bytes, data: Bytes): (ev: Event)
    ensures |ev.raw| <= |name| + |data| + 20
  {
    Event(name, data, SseFrame.Frame(name, data))
  }

  const BEGIN := Ev("message_start", "b")
  const START0 := Ev("content_block_start", "s")
  const START1 := Ev("content_block_start", "t")
  const CUT0 := Ev("content_block_delta", "0{")
  const WHOLE1 := Ev("content_block_delta", "1{}")
  const STOP0 := Ev("content_block_stop", "p")
  const STOP1 := Ev("content_block_stop", "q")
  const LIMIT := Ev("message_delta", "l")
  const END := Ev("message_stop", "e")

  /** A ping that carries a fragment of block 1. */
  const PING := Ev("ping", "1 ")

  lemma PlainJoin(i: int, parts: seq<Bytes>)
    requires parts != [] && AllDecode(ENV, i, parts)
    ensures (i == 0 || i == 1) && Plain(Concat(parts))
  {
    assert Decodes(ENV, i, parts[0]);
    if |parts| > 1 {
      forall k | 0 <= k < |parts[1..]| ensures Decodes(ENV, i, parts[1..][k]) {
        assert Decodes(ENV, i, parts[k + 1]);
      }
      PlainJoin(i, parts[1..]);
    } else {
      ConcatOne(parts[0]);
    }
  }

  lemma Faithful()
    ensures EncoderFaithful(ENV)
  {
    forall i, text | Joins(ENV, i, text) ensures EncodedFaithfully(ENV, i, text) {
      var parts :| parts != [] && AllDecode(ENV, i, parts) && text == Concat(parts);
      PlainJoin(i, parts);
      assert Encode(i, text)[1..] == text;
    }
  }

  lemma Types()
    ensures "content_block_start" != "content_block_delta" && "content_block_start" != "content_block_stop"
    ensures "content_block_delta" != "content_block_stop"
    ensures "message_start" != "content_block_start" && "message_start" != "content_block_delta" && "message_start" != "content_block_stop"
    ensures "message_stop" != "content_block_start" && "message_stop" != "content_block_delta" && "message_stop" != "content_block_stop"
    ensures "message_delta" != "content_block_start" && "message_delta" != "content_block_delta" && "message_delta" != "content_block_stop"
  {
    assert "content_block_start"[14] == 's' && "content_block_delta"[14] == 'd';
  }

  // ---------------------------------------------------------------- reading one event ----

  /** The texts of a block, one token at a time. */
  lemma {:induction false} Telling(i: int, ts: seq<Token>, xs: seq<Texts>)
    requires |xs| == |ts| + 1 && xs[0] == Texts([], "")
    requires forall k | 0 <= k < |ts| :: xs[k + 1] == AddText(i, xs[k], ts[k])
    ensures TextsOf(i, ts) == xs[|ts|]
  {
    if ts != [] {
      Telling(i, ts[..|ts| - 1], xs[..|ts|]);
    }
  }

  /** A client inside of the stream reads from the event's bytes what the machines read. */
  ghost predicate Told(env: Env, ev: Event) {
    Readable(ev) && Reader(env)(ev.raw) == EventToken(env, ev)
  }

  lemma PlainNames()
    ensures Plain("message_start") && Plain("message_delta") && Plain("message_stop") && Plain("ping")
    ensures Plain("content_block_start") && Plain("content_block_delta") && Plain("content_block_stop")
  {
  }

  predicate Written(ev: Event) {
    ev == Ev(ev.name, ev.data) && Plain(ev.name) && Plain(ev.data)
  }

  lemma ReadBack(env: Env, evs: seq<Event>)
    requires forall ev | ev in evs :: Written(ev)
    ensures forall ev | ev in evs :: Told(env, ev)
  {
    forall ev | ev in evs ensures Told(env, ev) {
      SseFrame.FrameReadsInside(ev.name, ev.data);
    }
  }

  lemma Received(env: Env, out: seq<Event>)
    requires forall ev | ev in out :: Told(env, ev)
    ensures Tokens(Reader(env), SseRoundTrip.Raws(out)) == EventTokens(env, out)
  {
    var got := Tokens(Reader(env), SseRoundTrip.Raws(out));
    forall k | 0 <= k < |out| ensures got[k] == EventTokens(env, out)[k] {
      assert Told(env, out[k]);
    }
  }

  lemma Names()
    ensures StreamOrder.KindOf("message_start").MessageStart? && StreamOrder.KindOf("message_stop").MessageStop?
    ensures StreamOrder.KindOf("content_block_start").BlockStart? && StreamOrder.KindOf("content_block_stop").BlockStop?
    ensures StreamOrder.KindOf("content_block_delta").Delta? && StreamOrder.KindOf("message_delta").Delta?
    ensures StreamOrder.KindOf("ping").Other?
  {
    Types();
  }

  lemma {:induction false} Ordering(ks: seq<StreamOrder.Kind>, os: seq<StreamOrder.Order>)
    requires |os| == |ks| + 1 && os[0] == StreamOrder.O_START
    requires forall k | 0 <= k < |ks| :: os[k + 1] == StreamOrder.OStep(os[k], ks[k])
    ensures StreamOrder.ORun(ks) == os[|ks|]
  {
    if ks != [] {
      Ordering(ks[..|ks| - 1], os[..|ks|]);
    }
  }

  /** Without pings nothing is overtaken. */
  lemma {:induction false} NoPings(env: Env, n: NState, evs: seq<Event>, i: int)
    requires env.normalize && NRun(env, n, evs).verdict == Accepted && forall ev | ev in evs :: ev.name != "ping"
    ensures KeepsPlaces(env, n, evs, i)
    decreases |evs|
  {
    if evs != [] {
      NoPing(env, n, evs[0], i);
      NoPings(env, NStep(env, n, evs[0], evs[0].raw).state, evs[1..], i);
    }
  }

  lemma NoPing(env: Env, n: NState, ev: Event, i: int)
    requires env.normalize && NStep(env, n, ev, ev.raw).verdict == Accepted && ev.name != "ping"
    ensures KeepsPlace(env, n, ev, i)
  {
  }

  // ------------------------------------------------------------------------ one event ----

  /** Both machines, and the frames released so far. */
  datatype Point = Point(v: VState, n: NState, out: seq<Bytes>)

  const START := Point(V_START, N_START, [])

  /** Both machines accept the event, and the normalizer releases these frames. */
  ghost predicate Goes(env: Env, v: VState, n: NState, ev: Event, v2: VState, n2: NState, out: seq<Bytes>) {
    VStep(env, v, ev) == VOut(v2, Accepted) && NStep(env, n, ev, ev.raw) == NOut(n2, out, Accepted)
  }

  ghost predicate Leads(env: Env, p: Point, ev: Event, q: Point) {
    exists more :: Goes(env, p.v, p.n, ev, q.v, q.n, more) && q.out == p.out + more
  }

  lemma Lead(env: Env, p: Point, ev: Event, q: Point, more: seq<Bytes>)
    requires Goes(env, p.v, p.n, ev, q.v, q.n, more) && q.out == p.out + more
    ensures Leads(env, p, ev, q)
  {
  }

  /** Both machines accept all of these events. */
  ghost predicate Runs(env: Env, p: Point, evs: seq<Event>, q: Point) {
    && VRun(env, p.v, evs) == VOut(q.v, Accepted)
    && var o := NRun(env, p.n, evs);
       o.verdict == Accepted && o.state == q.n && q.out == p.out + o.frames
  }

  lemma {:induction false} Walk(env: Env, evs: seq<Event>, at: seq<Point>)
    requires |at| == |evs| + 1
    requires forall k | 0 <= k < |evs| :: Leads(env, at[k], evs[k], at[k + 1])
    ensures Runs(env, at[0], evs, at[|evs|])
  {
    if evs != [] {
      assert Leads(env, at[0], evs[0], at[1]);
      forall k | 0 <= k < |evs| - 1 ensures Leads(env, at[1..][k], evs[1..][k], at[1..][k + 1]) {
        assert Leads(env, at[k + 1], evs[k + 1], at[k + 2]);
      }
      Walk(env, evs[1..], at[1..]);
      Assoc(at[0].out, NStep(env, at[0].n, evs[0], evs[0].raw).frames, NRun(env, at[1].n, evs[1..]).frames);
    }
  }

  lemma RunsTwice(env: Env, p: Point, a: seq<Event>, q: Point, b: seq<Event>, r: Point)
    requires Runs(env, p, a, q) && Runs(env, q, b, r)
    ensures Runs(env, p, a + b, r)
  {
    VRunSplit(env, p.v, a, b);
    NRunSplit(env, p.n, a, b);
    Assoc(p.out, NRun(env, p.n, a).frames, NRun(env, q.n, b).frames);
  }

  const V_OPEN0 := VState(map[0 := VBlock(false, "")], false, 0)

  const N_OPEN0 := NState(map[0 := NBlock(false, "", [], 0)], 0, None, 0)

  const V_CUT0 := VState(map[0 := VBlock(true, "{")], false, 1)

  const N_CUT0 := NState(map[0 := NBlock(true, "{", [], |CUT0.raw|)], |CUT0.raw|, None, 0)

  lemma Begins()
    ensures Goes(ENV, V_START, N_START, BEGIN, V_START, N_START, [BEGIN.raw])
  {
    Types();
  }

  lemma Opens0()
    ensures Goes(ENV, V_START, N_START, START0, V_OPEN0, N_OPEN0, [START0.raw])
  {
    Types();
    assert N_START.blocks - {0} == map[];
  }

  lemma Cuts0()
    ensures Goes(ENV, V_OPEN0, N_OPEN0, CUT0, V_CUT0, N_CUT0, [])
  {
    Types();
    EmptyPlus("{");
    assert "0{"[1..] == "{";
    assert V_OPEN0.blocks[0 := VBlock(true, "{")] == V_CUT0.blocks;
    assert N_OPEN0.blocks[0 := NBlock(true, "{", [], |CUT0.raw|)] == N_CUT0.blocks;
  }

  lemma Reopens0()
    ensures Goes(ENV, V_CUT0, N_CUT0, START0, V_OPEN0, N_OPEN0, [START0.raw])
  {
    Types();
    assert V_CUT0.blocks[0 := VBlock(false, "")] == V_OPEN0.blocks;
    assert N_CUT0.blocks - {0} == map[];
  }

  lemma Closes0()
    ensures Goes(ENV, V_OPEN0, N_OPEN0, STOP0, V_START, N_START, [STOP0.raw])
  {
    Types();
    assert V_OPEN0.blocks - {0} == map[];
    assert N_OPEN0.blocks - {0} == map[];
  }

  lemma StopsNothing()
    ensures Goes(ENV, V_START, N_START, STOP0, V_START, N_START, [STOP0.raw])
  {
    Types();
    assert N_START.blocks - {0} == map[];
  }

  lemma Ends()
    ensures Goes(ENV, V_START, N_START, END, V_START, N_START, [END.raw])
  {
    Types();
  }

  // ------------------------------------------------------------------ a reused index ----

  const REUSED: seq<Event> := [BEGIN, START0, CUT0, START0, STOP0, STOP0, END]

  const REUSED_GOT: seq<Event> := [BEGIN, START0, START0, STOP0, STOP0, END]

  lemma ReusedReached()
    ensures Runs(ENV, START, REUSED, Point(V_START, N_START, SseRoundTrip.Raws(REUSED_GOT)))
  {
    Begins();
    Opens0();
    Cuts0();
    Reopens0();
    Closes0();
    StopsNothing();
    Ends();
    RawsReused(BEGIN, START0, STOP0, END);
    WalkReused(ENV, BEGIN, START0, CUT0, STOP0, END, V_OPEN0, N_OPEN0, V_CUT0, N_CUT0);
  }

  lemma RawsReused(b: Event, s: Event, p: Event, e: Event)
    ensures SseRoundTrip.Raws([b, s, s, p, p, e]) == [b.raw, s.raw, s.raw, p.raw, p.raw, e.raw]
  {
  }

  lemma WalkReused(env: Env, b: Event, s: Event, c: Event, p: Event, e: Event, v1: VState, n1: NState, v2: VState, n2: NState)
    requires Goes(env, V_START, N_START, b, V_START, N_START, [b.raw]) && Goes(env, V_START, N_START, s, v1, n1, [s.raw])
    requires Goes(env, v1, n1, c, v2, n2, []) && Goes(env, v2, n2, s, v1, n1, [s.raw])
    requires Goes(env, v1, n1, p, V_START, N_START, [p.raw]) && Goes(env, V_START, N_START, p, V_START, N_START, [p.raw])
    requires Goes(env, V_START, N_START, e, V_START, N_START, [e.raw])
    ensures Runs(env, START, [b, s, c, s, p, p, e], Point(V_START, N_START, [b.raw, s.raw, s.raw, p.raw, p.raw, e.raw]))
  {
    var p1 := Point(V_START, N_START, [b.raw]);
    var p2 := Point(v1, n1, [b.raw, s.raw]);
    var p3 := Point(v2, n2, [b.raw, s.raw]);
    var p4 := Point(v1, n1, [b.raw, s.raw, s.raw]);
    var p5 := Point(V_START, N_START, [b.raw, s.raw, s.raw, p.raw]);
    var p6 := Point(V_START, N_START, [b.raw, s.raw, s.raw, p.raw, p.raw]);
    var p7 := Point(V_START, N_START, [b.raw, s.raw, s.raw, p.raw, p.raw, e.raw]);
    Lead(env, START, b, p1, [b.raw]);
    Lead(env, p1, s, p2, [s.raw]);
    Lead(env, p2, c, p3, []);
    Lead(env, p3, s, p4, [s.raw]);
    Lead(env, p4, p, p5, [p.raw]);
    Lead(env, p5, p, p6, [p.raw]);
    Lead(env, p6, e, p7, [e.raw]);
    Walk(env, [b, s, c, s], [START, p1, p2, p3, p4]);
    Walk(env, [p, p, e], [p4, p5, p6, p7]);
    RunsTwice(env, START, [b, s, c, s], p4, [p, p, e], p7);
    assert [b, s, c, s] + [p, p, e] == [b, s, c, s, p, p, e];
  }

  lemma ReusedTexts(b: Token, s: Token, c: Token, p: Token, e: Token)
    requires b.Other? && e.Other? && s.Boundary? && s.index == 0 && p.Boundary? && p.index == 0 && c == Delta(0, "{")
    ensures TextsOf(0, [b, s, c, s, p, p, e]) == Texts(["", "{", "", ""], "")
    ensures TextsOf(0, [b, s, s, p, p, e]) == Texts(["", "", "", ""], "")
  {
    EmptyPlus("{");
    var x0, x1, x2 := Texts([], ""), Texts([""], ""), Texts([""], "{");
    Telling(0, [b, s, c, s, p, p, e],
            [x0, x0, x1, x2, Texts(["", "{"], ""), Texts(["", "{", ""], ""), Texts(["", "{", "", ""], ""), Texts(["", "{", "", ""], "")]);
    Telling(0, [b, s, s, p, p, e],
            [x0, x0, x1, Texts(["", ""], ""), Texts(["", "", ""], ""), Texts(["", "", "", ""], ""), Texts(["", "", "", ""], "")]);
  }

  lemma ReusedOrder()
    ensures StreamOrder.Terminal(StreamOrder.ORun(StreamOrder.Kinds(REUSED)))
  {
    Names();
    var o1, o2 := StreamOrder.Order(true, 0, false, false), StreamOrder.Order(true, 1, false, false);
    Ordering(StreamOrder.Kinds(REUSED), [StreamOrder.O_START, o1, o2, o2, o2.(open := 2), o2, o1, o1.(sawStop := true)]);
  }

  lemma ReusedNoPing()
    ensures forall ev | ev in REUSED :: ev.name != "ping"
  {
  }

  lemma ReusedWritten()
    ensures forall ev | ev in REUSED :: Written(ev)
    ensures forall ev | ev in REUSED_GOT :: Written(ev)
  {
    PlainNames();
  }

  lemma TokensReused(env: Env, b: Event, s: Event, c: Event, p: Event, e: Event)
    ensures var b', s', c', p', e' := EventToken(env, b), EventToken(env, s), EventToken(env, c), EventToken(env, p), EventToken(env, e);
      && EventTokens(env, [b, s, c, s, p, p, e]) == [b', s', c', s', p', p', e']
      && EventTokens(env, [b, s, s, p, p, e]) == [b', s', s', p', p', e']
  {
  }

  lemma ReusedTokens()
    ensures EventToken(ENV, BEGIN).Other? && EventToken(ENV, END).Other?
    ensures EventToken(ENV, START0) == Boundary(0, START0.raw) && EventToken(ENV, STOP0) == Boundary(0, STOP0.raw)
    ensures EventToken(ENV, CUT0) == Delta(0, "{")
  {
    Types();
    assert "0{"[1..] == "{";
  }

  /** A block start at an index that is in use throws the block's input away: every check accepts this
      stream, nothing is left waiting, and the input that was sent is not received. */
  lemma ReusedIndexDrops()
    ensures EncoderFaithful(ENV) && KeepsPlaces(ENV, N_START, REUSED, 0) && forall ev | ev in REUSED :: Readable(ev)
    ensures StreamOrder.Terminal(StreamOrder.ORun(StreamOrder.Kinds(REUSED)))
    ensures VRun(ENV, V_START, REUSED).verdict == Accepted
    ensures NRun(ENV, N_START, REUSED) == NOut(N_START, SseRoundTrip.Raws(REUSED_GOT), Accepted)
    ensures TextsOf(0, EventTokens(ENV, REUSED)).closed == ["", "{", "", ""]
    ensures TextsOf(0, Tokens(Reader(ENV), SseRoundTrip.Raws(REUSED_GOT))).closed == ["", "", "", ""]
  {
    Faithful();
    ReusedReached();
    ReusedWritten();
    ReadBack(ENV, REUSED);
    Received(ENV, REUSED_GOT);
    ReadBack(ENV, REUSED_GOT);
    ReusedNoPing();
    NoPings(ENV, N_START, REUSED, 0);
    ReusedOrder();
    ReusedTokens();
    TokensReused(ENV, BEGIN, START0, CUT0, STOP0, END);
    ReusedTexts(EventToken(ENV, BEGIN), EventToken(ENV, START0), EventToken(ENV, CUT0), EventToken(ENV, STOP0), EventToken(ENV, END));
  }

  // ------------------------------------------------------- a fragment under another name ----

  const LOUD: seq<Event> := [BEGIN, START0, CUT0, START1, WHOLE1, STOP0, PING, LIMIT, STOP1, END]

  const LOUD_GOT: seq<Event> := [BEGIN, START0, START1, CUT0, STOP0, PING, LIMIT, WHOLE1, STOP1, END]

  const C: nat := |CUT0.raw|
  const W: nat := |WHOLE1.raw|
  const H: nat := |CUT0.raw| + |STOP0.raw|

  const V_BOTH := VState(map[0 := VBlock(true, "{"), 1 := VBlock(false, "")], false, 1)
  const V_TWO := VState(map[0 := VBlock(true, "{"), 1 := VBlock(true, "{}")], false, 3)
  const V_BAD := VState(map[1 := VBlock(true, "{}")], true, 2)
  const V_ONE := VState(map[1 := VBlock(true, "{}")], false, 2)

  const N_BOTH := NState(map[0 := NBlock(true, "{", [], C), 1 := NBlock(false, "", [], 0)], C, None, 0)
  const N_TWO := NState(map[0 := NBlock(true, "{", [], C), 1 := NBlock(true, "{}", [], W)], C + W, None, 0)
  const N_BAD := NState(map[1 := NBlock(true, "{}", [], W)], W + H, Some([CUT0.raw, STOP0.raw]), H)
  const N_PING := NState(map[1 := NBlock(true, "{}", [], W)], W + H + |PING.raw|, Some([CUT0.raw, STOP0.raw, PING.raw]), H + |PING.raw|)
  const N_ONE := NState(map[1 := NBlock(true, "{}", [], W)], W, None, 0)

  lemma Opens1()
    ensures Goes(ENV, V_CUT0, N_CUT0, START1, V_BOTH, N_BOTH, [START1.raw])
  {
    Types();
    assert N_CUT0.blocks - {1} == N_CUT0.blocks;
    assert V_CUT0.blocks[1 := VBlock(false, "")] == V_BOTH.blocks;
    assert N_CUT0.blocks[1 := NBlock(false, "", [], 0)] == N_BOTH.blocks;
  }

  lemma Fills1()
    ensures Goes(ENV, V_BOTH, N_BOTH, WHOLE1, V_TWO, N_TWO, [])
  {
    Types();
    EmptyPlus("{}");
    assert "1{}"[1..] == "{}";
    assert V_BOTH.blocks[1 := VBlock(true, "{}")] == V_TWO.blocks;
    assert N_BOTH.blocks[1 := NBlock(true, "{}", [], W)] == N_TWO.blocks;
  }

  lemma Holds0()
    ensures Goes(ENV, V_TWO, N_TWO, STOP0, V_BAD, N_BAD, [])
  {
    Types();
    assert Encode(0, "{") == "0{";
    assert DeltaFrame(ENV, 0, "{") == CUT0.raw;
    assert V_TWO.blocks - {0} == V_BAD.blocks;
    assert N_TWO.blocks - {0} == N_BAD.blocks;
  }

  lemma HoldsPing()
    ensures Goes(ENV, V_BAD, N_BAD, PING, V_BAD, N_PING, [])
  {
    assert [CUT0.raw, STOP0.raw] + [PING.raw] == [CUT0.raw, STOP0.raw, PING.raw];
  }

  lemma Excuses()
    ensures Goes(ENV, V_BAD, N_PING, LIMIT, V_ONE, N_ONE, [CUT0.raw, STOP0.raw, PING.raw, LIMIT.raw])
  {
    assert [CUT0.raw, STOP0.raw, PING.raw] + [LIMIT.raw] == [CUT0.raw, STOP0.raw, PING.raw, LIMIT.raw];
  }

  lemma Closes1()
    ensures Goes(ENV, V_ONE, N_ONE, STOP1, V_START, N_START, [WHOLE1.raw, STOP1.raw])
  {
    Types();
    assert Encode(1, "{}") == "1{}";
    assert DeltaFrame(ENV, 1, "{}") == WHOLE1.raw;
    assert V_ONE.blocks - {1} == map[];
    assert N_ONE.blocks - {1} == map[];
  }

  /** The first six events. */
  const LOUD_HEAD: seq<Event> := [BEGIN, START0, CUT0, START1, WHOLE1, STOP0]
  const LOUD_TAIL: seq<Event> := [PING, LIMIT, STOP1, END]

  lemma WalkHead(env: Env, b: Event, s: Event, c: Event, t: Event, w: Event, p: Event,
                 v1: VState, n1: NState, v2: VState, n2: NState, v3: VState, n3: NState, v4: VState, n4: NState, v5: VState, n5: NState)
    requires Goes(env, V_START, N_START, b, V_START, N_START, [b.raw]) && Goes(env, V_START, N_START, s, v1, n1, [s.raw])
    requires Goes(env, v1, n1, c, v2, n2, []) && Goes(env, v2, n2, t, v3, n3, [t.raw])
    requires Goes(env, v3, n3, w, v4, n4, []) && Goes(env, v4, n4, p, v5, n5, [])
    ensures Runs(env, START, [b, s, c, t, w, p], Point(v5, n5, [b.raw, s.raw, t.raw]))
  {
    var p1 := Point(V_START, N_START, [b.raw]);
    var p2 := Point(v1, n1, [b.raw, s.raw]);
    var p3 := Point(v2, n2, [b.raw, s.raw]);
    var p4 := Point(v3, n3, [b.raw, s.raw, t.raw]);
    var p5 := Point(v4, n4, [b.raw, s.raw, t.raw]);
    var p6 := Point(v5, n5, [b.raw, s.raw, t.raw]);
    Lead(env, START, b, p1, [b.raw]);
    Lead(env, p1, s, p2, [s.raw]);
    Lead(env, p2, c, p3, []);
    Lead(env, p3, t, p4, [t.raw]);
    Lead(env, p4, w, p5, []);
    Lead(env, p5, p, p6, []);
    Walk(env, [b, s, c, t, w, p], [START, p1, p2, p3, p4, p5, p6]);
  }

  lemma WalkTail(env: Env, k: Event, l: Event, q: Event, e: Event, start: Point, v2: VState, n2: NState, v3: VState, n3: NState, held: seq<Bytes>, last: seq<Bytes>)
    requires Goes(env, start.v, start.n, k, start.v, n2, []) && Goes(env, start.v, n2, l, v3, n3, held)
    requires Goes(env, v3, n3, q, V_START, N_START, last) && Goes(env, V_START, N_START, e, V_START, N_START, [e.raw])
    ensures Runs(env, start, [k, l, q, e], Point(V_START, N_START, start.out + held + last + [e.raw]))
  {
    var p1 := Point(start.v, n2, start.out);
    var p2 := Point(v3, n3, start.out + held);
    var p3 := Point(V_START, N_START, start.out + held + last);
    var p4 := Point(V_START, N_START, start.out + held + last + [e.raw]);
    Lead(env, start, k, p1, []);
    Lead(env, p1, l, p2, held);
    Lead(env, p2, q, p3, last);
    Lead(env, p3, e, p4, [e.raw]);
    Walk(env, [k, l, q, e], [start, p1, p2, p3, p4]);
  }

  lemma LoudRaws(b: Event, s: Event, t: Event, c: Event, p: Event, k: Event, l: Event, w: Event, q: Event, e: Event)
    ensures SseRoundTrip.Raws([b, s, t, c, p, k, l, w, q, e])
         == [b.raw, s.raw, t.raw] + [c.raw, p.raw, k.raw, l.raw] + [w.raw, q.raw] + [e.raw]
  {
  }

  lemma LoudParts(b: Event, s: Event, c: Event, t: Event, w: Event, p: Event, k: Event, l: Event, q: Event, e: Event)
    ensures [b, s, c, t, w, p] + [k, l, q, e] == [b, s, c, t, w, p, k, l, q, e]
  {
  }

  lemma LoudRuns()
    ensures Runs(ENV, START, LOUD, Point(V_START, N_START, SseRoundTrip.Raws(LOUD_GOT)))
  {
    Begins();
    Opens0();
    Cuts0();
    Opens1();
    Fills1();
    Holds0();
    HoldsPing();
    Excuses();
    Closes1();
    Ends();
    var mid := Point(V_BAD, N_BAD, [BEGIN.raw, START0.raw, START1.raw]);
    WalkHead(ENV, BEGIN, START0, CUT0, START1, WHOLE1, STOP0, V_OPEN0, N_OPEN0, V_CUT0, N_CUT0, V_BOTH, N_BOTH, V_TWO, N_TWO, V_BAD, N_BAD);
    WalkTail(ENV, PING, LIMIT, STOP1, END, mid, V_BAD, N_PING, V_ONE, N_ONE,
             [CUT0.raw, STOP0.raw, PING.raw, LIMIT.raw], [WHOLE1.raw, STOP1.raw]);
    LoudRaws(BEGIN, START0, START1, CUT0, STOP0, PING, LIMIT, WHOLE1, STOP1, END);
    LoudParts(BEGIN, START0, CUT0, START1, WHOLE1, STOP0, PING, LIMIT, STOP1, END);
    RunsTwice(ENV, START, LOUD_HEAD, mid, LOUD_TAIL, Point(V_START, N_START, SseRoundTrip.Raws(LOUD_GOT)));
  }

  lemma LoudOrder()
    ensures StreamOrder.Terminal(StreamOrder.ORun(StreamOrder.Kinds(LOUD)))
  {
    Names();
    var o1 := StreamOrder.Order(true, 0, false, false);
    var o2, o3 := o1.(open := 1), o1.(open := 2);
    Ordering(StreamOrder.Kinds(LOUD), [StreamOrder.O_START, o1, o2, o2, o3, o3, o2, o2, o2, o1, o1.(sawStop := true)]);
  }

  lemma LoudTokens()
    ensures EventToken(ENV, LIMIT).Other?
    ensures EventToken(ENV, START1) == Boundary(1, START1.raw) && EventToken(ENV, STOP1) == Boundary(1, STOP1.raw)
  {
    Types();
  }

  lemma LoudFragments()
    ensures EventToken(ENV, WHOLE1) == Delta(1, "{}") && EventToken(ENV, PING) == Delta(1, " ")
  {
    assert "1{}"[1..] == "{}" && "1 "[1..] == " ";
  }

  lemma TokensLoud(env: Env, b: Event, s: Event, c: Event, t: Event, w: Event, p: Event, k: Event, l: Event, q: Event, e: Event)
    ensures var b', s', c', t', w' := EventToken(env, b), EventToken(env, s), EventToken(env, c), EventToken(env, t), EventToken(env, w);
      var p', k', l', q', e' := EventToken(env, p), EventToken(env, k), EventToken(env, l), EventToken(env, q), EventToken(env, e);
      && EventTokens(env, [b, s, c, t, w, p, k, l, q, e]) == [b', s', c', t', w', p', k', l', q', e']
      && EventTokens(env, [b, s, t, c, p, k, l, w, q, e]) == [b', s', t', c', p', k', l', w', q', e']
  {
  }

  lemma LoudTexts(b: Token, s: Token, c: Token, t: Token, w: Token, p: Token, k: Token, l: Token, q: Token, e: Token)
    requires b.Other? && e.Other? && l.Other? && s.Boundary? && s.index == 0 && p.Boundary? && p.index == 0
    requires t.Boundary? && t.index == 1 && q.Boundary? && q.index == 1
    requires c == Delta(0, "{") && w == Delta(1, "{}") && k == Delta(1, " ")
    ensures TextsOf(1, [b, s, c, t, w, p, k, l, q, e]) == Texts(["", "{} "], "")
    ensures TextsOf(1, [b, s, t, c, p, k, l, w, q, e]) == Texts(["", " {}"], "")
  {
    EmptyPlus("{}");
    EmptyPlus(" ");
    assert "{}" + " " == "{} " && " " + "{}" == " {}";
    var x0, x1 := Texts([], ""), Texts([""], "");
    var y2, y3 := x1.(open := "{}"), x1.(open := "{} ");
    var z2, z3 := x1.(open := " "), x1.(open := " {}");
    Telling(1, [b, s, c, t, w, p, k, l, q, e], [x0, x0, x0, x0, x1, y2, y2, y3, y3, Texts(["", "{} "], ""), Texts(["", "{} "], "")]);
    Telling(1, [b, s, t, c, p, k, l, w, q, e], [x0, x0, x0, x1, x1, x1, z2, z2, z3, Texts(["", " {}"], ""), Texts(["", " {}"], "")]);
  }

  lemma LoudWritten()
    ensures Written(BEGIN) && Written(START0) && Written(CUT0) && Written(START1) && Written(WHOLE1)
    ensures Written(STOP0) && Written(PING) && Written(LIMIT) && Written(STOP1) && Written(END)
  {
    PlainNames();
  }

  /** Sent in one order and received in the other, each event is read as it was. */
  lemma LoudReads(env: Env, b: Event, s: Event, c: Event, t: Event, w: Event, p: Event, k: Event, l: Event, q: Event, e: Event)
    requires Written(b) && Written(s) && Written(c) && Written(t) && Written(w)
    requires Written(p) && Written(k) && Written(l) && Written(q) && Written(e)
    ensures forall ev | ev in [b, s, c, t, w, p, k, l, q, e] :: Readable(ev)
    ensures var got := [b, s, t, c, p, k, l, w, q, e];
      Tokens(Reader(env), SseRoundTrip.Raws(got)) == EventTokens(env, got)
  {
    ReadBack(env, [b, s, c, t, w, p, k, l, q, e]);
    ReadBack(env, [b, s, t, c, p, k, l, w, q, e]);
    Received(env, [b, s, t, c, p, k, l, w, q, e]);
  }

  /** What the client reads of each block's text. */
  lemma LoudTold()
    ensures forall ev | ev in LOUD :: Readable(ev)
    ensures TextsOf(1, EventTokens(ENV, LOUD)) == Texts(["", "{} "], "")
    ensures TextsOf(1, Tokens(Reader(ENV), SseRoundTrip.Raws(LOUD_GOT))) == Texts(["", " {}"], "")
  {
    LoudWritten();
    LoudReads(ENV, BEGIN, START0, CUT0, START1, WHOLE1, STOP0, PING, LIMIT, STOP1, END);
    ReusedTokens();
    LoudTokens();
    LoudFragments();
    TokensLoud(ENV, BEGIN, START0, CUT0, START1, WHOLE1, STOP0, PING, LIMIT, STOP1, END);
    LoudTexts(EventToken(ENV, BEGIN), EventToken(ENV, START0), EventToken(ENV, CUT0), EventToken(ENV, START1), EventToken(ENV, WHOLE1),
              EventToken(ENV, STOP0), EventToken(ENV, PING), EventToken(ENV, LIMIT), EventToken(ENV, STOP1), EventToken(ENV, END));
  }

  /** A ping that carries a fragment, while frames are held, is released before the fragments that were
      sent ahead of it: every check accepts this stream, nothing is left waiting, and the input of
      block 1 is received in another order. */
  lemma LoudPingReorders()
    ensures EncoderFaithful(ENV) && forall ev | ev in LOUD :: Readable(ev)
    ensures StreamOrder.Terminal(StreamOrder.ORun(StreamOrder.Kinds(LOUD)))
    ensures VRun(ENV, V_START, LOUD).verdict == Accepted
    ensures NRun(ENV, N_START, LOUD) == NOut(N_START, SseRoundTrip.Raws(LOUD_GOT), Accepted)
    ensures TextsOf(1, EventTokens(ENV, LOUD)).closed == ["", "{} "]
    ensures TextsOf(1, Tokens(Reader(ENV), SseRoundTrip.Raws(LOUD_GOT))).closed == ["", " {}"]
  {
    Faithful();
    LoudRuns();
    LoudTold();
    LoudOrder();
  }
}
