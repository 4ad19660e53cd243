/**
 What replaying a stream through the normalizer preserves: every frame that is not an input delta,
 verbatim and in order, and for every block the text between its boundaries.
 */
module ToolJsonConservation {
  import opened Common
  import opened SseParser
  import opened SseRoundTrip
  import SseFrame
  import opened ToolJson

  /** The meaning of one frame: input text for a block, a block boundary, or anything else. */
  datatype Token =
    | Delta(index: int, text: Bytes)
    | Boundary(index: int, raw: Bytes)
    | Other(raw: Bytes)

  function EventToken(env: Env, ev: Event): Token {
    if ev.data == "" || env.decode(ev.data).None? then Other(ev.raw) else
    var p := env.decode(ev.data).value;
    match p.typ
    case "content_block_delta" => if p.deltaType == "input_json_delta" then Delta(p.index, p.partialJson) else Other(ev.raw)
    case "content_block_start" => if UsesInputJson(p.blockType) then Boundary(p.index, ev.raw) else Other(ev.raw)
    case "content_block_stop" => Boundary(p.index, ev.raw)
    case _ => Other(ev.raw)
  }

  function Tokens(read: Bytes -> Token, frames: seq<Bytes>): (ts: seq<Token>)
    ensures |ts| == |frames|
  {
    seq(|frames|, i requires 0 <= i < |frames| => read(frames[i]))
  }

  function EventTokens(env: Env, evs: seq<Event>): (ts: seq<Token>)
    ensures |ts| == |evs|
  {
    seq(|evs|, i requires 0 <= i < |evs| => EventToken(env, evs[i]))
  }

  function AddVerbatim(frames: seq<Bytes>, t: Token): seq<Bytes> {
    if t.Delta? then frames else frames + [t.raw]
  }

  /** Everything but input deltas, in order. */
  function Verbatim(ts: seq<Token>): seq<Bytes> {
    if ts == [] then [] else AddVerbatim(Verbatim(ts[..|ts| - 1]), ts[|ts| - 1])
  }

  /** The input text of block i between its consecutive boundaries; `open` follows the last one. */
  datatype Texts = Texts(closed: seq<Bytes>, open: Bytes)

  function AddText(i: int, x: Texts, t: Token): Texts {
    match t
    case Delta(j, text) => if j == i then x.(open := x.open + text) else x
    case Boundary(j, _) => if j == i then Texts(x.closed + [x.open], "") else x
    case Other(_) => x
  }

  function TextsOf(i: int, ts: seq<Token>): Texts {
    if ts == [] then Texts([], "") else AddText(i, TextsOf(i, ts[..|ts| - 1]), ts[|ts| - 1])
  }

  // -------------------------------------------------------------- what is assumed ----

  function TokenOf(env: Env, frame: Bytes, evs: seq<Event>): Token {
    if |evs| == 1 && evs[0].raw == frame then EventToken(env, evs[0]) else Other(frame)
  }

  /** What a client that reads the frame inside of a stream gets. */
  function FrameToken(env: Env, frame: Bytes): Token {
    TokenOf(env, frame, Feed(0, Fresh(true), frame, true).events)
  }

  /** A client's reading of single frames. */
  function Reader(env: Env): Bytes -> Token {
    (frame: Bytes) => FrameToken(env, frame)
  }

  /** Some event of block i decodes to this text. */
  ghost predicate Decodes(env: Env, i: int, text: Bytes) {
    exists data :: DecodesTo(env, data, i, text)
  }

  predicate DecodesTo(env: Env, data: Bytes, i: int, text: Bytes) {
    env.decode(data).Some? && env.decode(data).value.index == i && env.decode(data).value.partialJson == text
  }

  /** Texts that the decoder gave for block i. */
  ghost predicate AllDecode(env: Env, i: int, parts: seq<Bytes>) {
    forall k | 0 <= k < |parts| :: Decodes(env, i, parts[k])
  }

  /** The text is a concatenation of one or more texts that the decoder gave for block i. */
  ghost predicate Joins(env: Env, i: int, text: Bytes) {
    exists parts :: parts != [] && AllDecode(env, i, parts) && text == Concat(parts)
  }

  /** The reading `read` understands joined frames. */
  ghost predicate Reads(env: Env, read: Bytes -> Token) {
    forall i, text | Joins(env, i, text) :: read(DeltaFrame(env, i, text)) == Delta(i, text)
  }

  /** For text that came out of the decoder, the encoder's JSON is one line that decodes to the delta it
      was given. */
  ghost predicate EncoderFaithful(env: Env) {
    forall i, text | Joins(env, i, text) :: EncodedFaithfully(env, i, text)
  }

  predicate EncodedFaithfully(env: Env, i: int, text: Bytes) {
    var json := env.encodeDelta(i, text);
    && Plain(json) && json != ""
    && env.decode(json).Some?
    && var p := env.decode(json).value;
       p.typ == "content_block_delta" && p.deltaType == "input_json_delta" && p.index == i && p.partialJson == text
  }

  /** The event reads back from its own bytes inside of a stream, as every parsed record after the first
      does. */
  predicate Readable(ev: Event) {
    Feed(0, Fresh(true), ev.raw, true).events == [ev]
  }

  lemma JoinsMore(env: Env, i: int, text: Bytes, more: Bytes, data: Bytes)
    requires (text == "" || Joins(env, i, text)) && DecodesTo(env, data, i, more)
    ensures Joins(env, i, text + more)
  {
    var parts: seq<Bytes> := [];
    if text != "" {
      parts :| parts != [] && AllDecode(env, i, parts) && text == Concat(parts);
    }
    assert Decodes(env, i, more);
    ConcatSplit(parts, [more]);
    ConcatOne(more);
    assert AllDecode(env, i, parts + [more]);
  }

  // ---------------------------------------------------------------- token algebra ----

  lemma TokenPush(i: int, ts: seq<Token>, t: Token)
    ensures Verbatim(ts + [t]) == AddVerbatim(Verbatim(ts), t)
    ensures TextsOf(i, ts + [t]) == AddText(i, TextsOf(i, ts), t)
  {
    assert (ts + [t])[..|ts|] == ts;
  }

  /** What a reader has got: some tokens, then the frames. */
  function Got(read: Bytes -> Token, pre: seq<Token>, frames: seq<Bytes>): seq<Token> {
    pre + Tokens(read, frames)
  }

  lemma FramePush(read: Bytes -> Token, pre: seq<Token>, i: int, out: seq<Bytes>, f: Bytes)
    ensures Verbatim(Got(read, pre, out + [f])) == AddVerbatim(Verbatim(Got(read, pre, out)), read(f))
    ensures TextsOf(i, Got(read, pre, out + [f])) == AddText(i, TextsOf(i, Got(read, pre, out)), read(f))
  {
    assert Got(read, pre, out + [f]) == Got(read, pre, out) + [read(f)];
    TokenPush(i, Got(read, pre, out), read(f));
  }

  lemma JoinedToken(env: Env, i: int, text: Bytes, frame: Bytes)
    requires EncodedFaithfully(env, i, text)
    ensures TokenOf(env, frame, [Event("content_block_delta", env.encodeDelta(i, text), frame)]) == Delta(i, text)
  {
  }

  lemma ReaderReads(env: Env)
    requires EncoderFaithful(env)
    ensures Reads(env, Reader(env))
  {
    forall i, text | Joins(env, i, text) ensures Reader(env)(DeltaFrame(env, i, text)) == Delta(i, text) {
      assert EncodedFaithfully(env, i, text);
      JoinedReads(env, i, text);
    }
  }

  lemma JoinedReads(env: Env, i: int, text: Bytes)
    requires EncodedFaithfully(env, i, text)
    ensures FrameToken(env, DeltaFrame(env, i, text)) == Delta(i, text)
  {
    JoinedToken(env, i, text, DeltaFrame(env, i, text));
    WrittenToken(env, "content_block_delta", env.encodeDelta(i, text));
  }

  /** A written frame is read as the event it was written for. */
  lemma WrittenToken(env: Env, name: Bytes, data: Bytes)
    requires Plain(name) && Plain(data)
    ensures var frame := SseFrame.Frame(name, data);
      FrameToken(env, frame) == TokenOf(env, frame, [Event(name, data, frame)])
  {
    SseFrame.FrameReadsInside(name, data);
  }

  /** Empty fragments of one block add nothing to any block. */
  lemma {:induction false} EmptyDeltas(read: Bytes -> Token, pre: seq<Token>, k: int, i: int, out: seq<Bytes>, deltas: seq<Bytes>)
    requires forall f | f in deltas :: read(f) == Delta(k, "")
    ensures Verbatim(Got(read, pre, out + deltas)) == Verbatim(Got(read, pre, out))
    ensures TextsOf(i, Got(read, pre, out + deltas)) == TextsOf(i, Got(read, pre, out))
    decreases |deltas|
  {
    if deltas == [] {
      assert out + deltas == out;
    } else {
      EmptyDeltas(read, pre, k, i, out + [deltas[0]], deltas[1..]);
      assert out + deltas == (out + [deltas[0]]) + deltas[1..];
      FramePush(read, pre, i, out, deltas[0]);
      var x := TextsOf(i, Got(read, pre, out));
      assert x.open + "" == x.open;
    }
  }

  // ------------------------------------------------------------------- one step's shape ----

  function Pending(n: NState, i: int): Bytes {
    if i in n.blocks then n.blocks[i].input else ""
  }

  /** What has been released or is held for release. */
  function Released(out: seq<Bytes>, n: NState): seq<Bytes> {
    out + if n.held.Some? then n.held.value else []
  }

  /** The bookkeeping of one open block. */
  ghost predicate BlockOk(env: Env, read: Bytes -> Token, i: int, b: NBlock) {
    && (b.input != "" ==> Joins(env, i, b.input) && b.sawInputDelta && b.rawDeltas == [])
    && (forall f | f in b.rawDeltas :: read(f) == Delta(i, ""))
  }

  ghost predicate BlocksOk(env: Env, read: Bytes -> Token, n: NState) {
    forall i | i in n.blocks :: BlockOk(env, read, i, n.blocks[i])
  }

  predicate IsStop(env: Env, ev: Event) {
    EventToken(env, ev).Boundary? && env.decode(ev.data).value.typ == "content_block_stop"
  }

  /** The withheld input that the stop of a block releases, just before the stop itself. */
  function StopFrames(env: Env, n: NState, i: int): seq<Bytes> {
    if i !in n.blocks || !n.blocks[i].sawInputDelta then []
    else if n.blocks[i].input == "" then n.blocks[i].rawDeltas
    else [DeltaFrame(env, i, n.blocks[i].input)]
  }

  /** The frames one event adds to what is released or held. */
  function Added(env: Env, n: NState, ev: Event): seq<Bytes> {
    var t := EventToken(env, ev);
    if n.held.Some? then [ev.raw]
    else if t.Delta? then []
    else if IsStop(env, ev) then StopFrames(env, n, t.index) + [ev.raw]
    else [ev.raw]
  }

  function PendingAfter(env: Env, n: NState, ev: Event, i: int): Bytes {
    if n.held.Some? then Pending(n, i) else
    match EventToken(env, ev)
    case Delta(j, text) => if i == j then Pending(n, i) + text else Pending(n, i)
    case Boundary(j, _) => if i == j then "" else Pending(n, i)
    case Other(_) => Pending(n, i)
  }

  lemma StepReleases(env: Env, n: NState, ev: Event, out: seq<Bytes>)
    requires env.normalize && NStep(env, n, ev, ev.raw).verdict == Accepted
    ensures var o := NStep(env, n, ev, ev.raw);
      Released(out + o.frames, o.state) == Released(out, n) + Added(env, n, ev)
  {
    var o := NStep(env, n, ev, ev.raw);
    if n.held.Some? {
      EmptyPlus(out);
      Assoc(out, n.held.value, [ev.raw]);
      EmptyPlus(out + (n.held.value + [ev.raw]));
    } else {
      assert Released(out, n) == out;
      if o.state.held.Some? {
        assert o.frames == [] && o.state.held.value == Added(env, n, ev);
        assert out + [] == out;
      } else {
        assert o.frames == Added(env, n, ev);
      }
    }
  }

  lemma StepPending(env: Env, n: NState, ev: Event, i: int)
    requires env.normalize && NStep(env, n, ev, ev.raw).verdict == Accepted
    ensures Pending(NStep(env, n, ev, ev.raw).state, i) == PendingAfter(env, n, ev, i)
  {
  }

  lemma StepBlocks(env: Env, read: Bytes -> Token, n: NState, ev: Event)
    requires env.normalize && read(ev.raw) == EventToken(env, ev) && BlocksOk(env, read, n)
    requires NStep(env, n, ev, ev.raw).verdict == Accepted
    ensures BlocksOk(env, read, NStep(env, n, ev, ev.raw).state)
  {
    var t := EventToken(env, ev);
    if n.held.None? && t.Delta? {
      DeltaBlocks(env, read, n, ev, t.index, t.text);
    }
  }

  lemma DeltaBlocks(env: Env, read: Bytes -> Token, n: NState, ev: Event, i: int, text: Bytes)
    requires n.held.None? && EventToken(env, ev) == Delta(i, text) && BlocksOk(env, read, n)
    requires text == "" ==> read(ev.raw) == Delta(i, text)
    ensures BlocksOk(env, read, NDelta(n, i, text, ev.raw))
  {
    assert i in n.blocks ==> BlockOk(env, read, i, n.blocks[i]);
    assert DecodesTo(env, ev.data, i, text);
    JoinsMore(env, i, Pending(n, i), text, ev.data);
    var after := NDelta(n, i, text, ev.raw);
    forall j | j in after.blocks ensures BlockOk(env, read, j, after.blocks[j]) {
      assert j != i ==> BlockOk(env, read, j, n.blocks[j]);
    }
  }

  // ------------------------------------------------------------------- the conservation ----

  /** The text a tool block start throws away when its index still has undelivered deltas. */
  function Dropped(env: Env, n: NState, ev: Event, i: int): nat {
    if n.held.None? && EventToken(env, ev) == Boundary(i, ev.raw) && !IsStop(env, ev) then |Pending(n, i)| else 0
  }

  /** The text of block i thrown away over a whole run. */
  function DroppedIn(env: Env, n: NState, evs: seq<Event>, i: int): nat
    decreases |evs|
  {
    if evs == [] then 0 else
    Dropped(env, n, evs[0], i) + DroppedIn(env, NStep(env, n, evs[0], evs[0].raw).state, evs[1..], i)
  }

  /** While frames are held, an event is released at once, as a ping that carries a block payload is.
      It keeps its place in block i unless undelivered text of the block is thereby overtaken: by a
      boundary, or by a fragment that makes another text in the other order. */
  predicate KeepsPlace(env: Env, n: NState, ev: Event, i: int) {
    n.held.None? ||
    match EventToken(env, ev)
    case Delta(j, text) => j != i || Pending(n, i) + text == text + Pending(n, i)
    case Boundary(j, _) => j != i || Pending(n, i) == ""
    case Other(_) => true
  }

  /** Over a whole run. */
  predicate KeepsPlaces(env: Env, n: NState, evs: seq<Event>, i: int)
    decreases |evs|
  {
    evs != [] ==>
      KeepsPlace(env, n, evs[0], i) && KeepsPlaces(env, NStep(env, n, evs[0], evs[0].raw).state, evs[1..], i)
  }

  /** How much text, in all segments. */
  function Length(t: Texts): nat {
    |Concat(t.closed)| + |t.open|
  }

  /** The text written for a block (b), and what is pending, is the text read for it (a). */
  predicate InStep(a: Texts, b: Texts, pending: Bytes) {
    a.closed == b.closed && a.open == b.open + pending
  }

  lemma LengthClose(t: Texts, last: Bytes)
    ensures |Concat(t.closed + [last])| == |Concat(t.closed)| + |last|
  {
    ConcatSplit(t.closed, [last]);
    ConcatOne(last);
  }

  /** The text of block i once one event's frames are written. */
  function WrittenText(env: Env, n: NState, ev: Event, i: int, b: Texts): Texts {
    match EventToken(env, ev)
    case Delta(j, text) => if n.held.Some? && j == i then b.(open := b.open + text) else b
    case Boundary(j, _) =>
      if j != i then b
      else Texts(b.closed + [b.open + if n.held.None? && IsStop(env, ev) then Pending(n, i) else ""], "")
    case Other(_) => b
  }

  lemma AddedTexts(env: Env, read: Bytes -> Token, pre: seq<Token>, n: NState, ev: Event, i: int, out: seq<Bytes>)
    requires Reads(env, read) && read(ev.raw) == EventToken(env, ev) && BlocksOk(env, read, n)
    ensures TextsOf(i, Got(read, pre, out + Added(env, n, ev))) == WrittenText(env, n, ev, i, TextsOf(i, Got(read, pre, out)))
    ensures Verbatim(Got(read, pre, out + Added(env, n, ev))) == AddVerbatim(Verbatim(Got(read, pre, out)), EventToken(env, ev))
  {
    var t := EventToken(env, ev);
    if n.held.None? && t.Delta? {
      EmptyPlus(out);
    } else if n.held.None? && IsStop(env, ev) {
      StopTexts(env, read, pre, n, t.index, i, out, ev.raw);
    } else {
      PushedTexts(env, read, pre, n, ev, i, out);
    }
  }

  lemma PushedTexts(env: Env, read: Bytes -> Token, pre: seq<Token>, n: NState, ev: Event, i: int, out: seq<Bytes>)
    requires read(ev.raw) == EventToken(env, ev) && (n.held.Some? || !(EventToken(env, ev).Delta? || IsStop(env, ev)))
    ensures TextsOf(i, Got(read, pre, out + [ev.raw])) == WrittenText(env, n, ev, i, TextsOf(i, Got(read, pre, out)))
    ensures Verbatim(Got(read, pre, out + [ev.raw])) == AddVerbatim(Verbatim(Got(read, pre, out)), EventToken(env, ev))
  {
    FramePush(read, pre, i, out, ev.raw);
    EmptyPlus(TextsOf(i, Got(read, pre, out)).open);
  }

  lemma StopTexts(env: Env, read: Bytes -> Token, pre: seq<Token>, n: NState, k: int, i: int, out: seq<Bytes>, raw: Bytes)
    requires Reads(env, read) && BlocksOk(env, read, n) && read(raw) == Boundary(k, raw)
    ensures var b := TextsOf(i, Got(read, pre, out));
      var all := out + (StopFrames(env, n, k) + [raw]);
      && TextsOf(i, Got(read, pre, all)) == (if i == k then Texts(b.closed + [b.open + Pending(n, k)], "") else b)
      && Verbatim(Got(read, pre, all)) == Verbatim(Got(read, pre, out)) + [raw]
  {
    var head := StopFrames(env, n, k);
    Assoc(out, head, [raw]);
    FramePush(read, pre, i, out + head, raw);
    HeadTexts(env, read, pre, n, k, i, out);
  }

  lemma HeadTexts(env: Env, read: Bytes -> Token, pre: seq<Token>, n: NState, k: int, i: int, out: seq<Bytes>)
    requires Reads(env, read) && BlocksOk(env, read, n)
    ensures var b := TextsOf(i, Got(read, pre, out));
      TextsOf(i, Got(read, pre, out + StopFrames(env, n, k))) == if i == k then b.(open := b.open + Pending(n, k)) else b
    ensures Verbatim(Got(read, pre, out + StopFrames(env, n, k))) == Verbatim(Got(read, pre, out))
  {
    var b := TextsOf(i, Got(read, pre, out));
    assert b.open + "" == b.open;
    assert k in n.blocks ==> BlockOk(env, read, k, n.blocks[k]);
    var head := StopFrames(env, n, k);
    if k in n.blocks && n.blocks[k].input != "" {
      FramePush(read, pre, i, out, head[0]);
      assert head == [head[0]];
    } else {
      EmptyDeltas(read, pre, k, i, out, head);
    }
  }

  lemma CommonHead(x: Bytes, y: Bytes, z: Bytes)
    ensures x + y == x + z <==> y == z
  {
    assert (x + y)[|x|..] == y && (x + z)[|x|..] == z;
  }

  lemma CommonPrefix(xs: seq<Bytes>, y: Bytes, z: Bytes)
    ensures xs + [y] == xs + [z] <==> y == z
  {
    assert (xs + [y])[|xs|] == y && (xs + [z])[|xs|] == z;
  }

  /** One event leaves the text of block i in step exactly if it keeps its place and drops nothing. */
  lemma TextInStep(env: Env, n: NState, ev: Event, i: int, a: Texts, b: Texts)
    requires InStep(a, b, Pending(n, i))
    ensures InStep(AddText(i, a, EventToken(env, ev)), WrittenText(env, n, ev, i, b), PendingAfter(env, n, ev, i))
      <==> KeepsPlace(env, n, ev, i) && Dropped(env, n, ev, i) == 0
  {
    var p := Pending(n, i);
    match EventToken(env, ev)
    case Delta(j, text) =>
      Assoc(b.open, p, text);
      Assoc(b.open, text, p);
      CommonHead(b.open, p + text, text + p);
    case Boundary(j, _) =>
      EmptyPlus(b.open);
      CommonPrefix(b.closed, b.open + p, b.open);
      CommonHead(b.open, p, "");
    case Other(_) =>
  }

  /** Whatever it does to the order, one event accounts for the amount of text. */
  lemma TextLength(env: Env, n: NState, ev: Event, i: int, a: Texts, b: Texts)
    ensures Length(AddText(i, a, EventToken(env, ev))) - Length(WrittenText(env, n, ev, i, b)) - |PendingAfter(env, n, ev, i)|
      == Length(a) - Length(b) - |Pending(n, i)| + Dropped(env, n, ev, i)
  {
    if EventToken(env, ev).Boundary? && EventToken(env, ev).index == i {
      LengthClose(a, a.open);
      LengthClose(b, b.open + if n.held.None? && IsStop(env, ev) then Pending(n, i) else "");
    }
  }

  /** What relates the text read for block i (a) to the text written for it (b). */
  ghost predicate TextKept(a: Texts, b: Texts, pending: Bytes, lost: nat, inPlace: bool) {
    && Length(a) == Length(b) + |pending| + lost
    && (lost == 0 && inPlace ==> InStep(a, b, pending))
  }

  /** The invariant of a run, for block i: `ins` was read, `out` was written, `lost` was thrown away. */
  ghost predicate Kept(env: Env, read: Bytes -> Token, pre: seq<Token>, i: int, ins: seq<Token>, out: seq<Bytes>, n: NState, lost: nat, inPlace: bool) {
    && BlocksOk(env, read, n)
    && TextKept(TextsOf(i, ins), TextsOf(i, Got(read, pre, Released(out, n))), Pending(n, i), lost, inPlace)
    && Verbatim(ins) == Verbatim(Got(read, pre, Released(out, n)))
  }

  predicate Understood(env: Env, read: Bytes -> Token, ev: Event) {
    read(ev.raw) == EventToken(env, ev)
  }

  /** The texts of block i before and after one event. */
  lemma StepTexts(env: Env, read: Bytes -> Token, pre: seq<Token>, n: NState, ev: Event, i: int, ins: seq<Token>, out: seq<Bytes>)
    requires env.normalize && Reads(env, read) && Understood(env, read, ev) && BlocksOk(env, read, n)
    requires NStep(env, n, ev, ev.raw).verdict == Accepted
    ensures var o := NStep(env, n, ev, ev.raw);
      && TextsOf(i, ins + [EventToken(env, ev)]) == AddText(i, TextsOf(i, ins), EventToken(env, ev))
      && TextsOf(i, Got(read, pre, Released(out + o.frames, o.state)))
         == WrittenText(env, n, ev, i, TextsOf(i, Got(read, pre, Released(out, n))))
      && Pending(o.state, i) == PendingAfter(env, n, ev, i)
      && Verbatim(ins + [EventToken(env, ev)]) == AddVerbatim(Verbatim(ins), EventToken(env, ev))
      && Verbatim(Got(read, pre, Released(out + o.frames, o.state)))
         == AddVerbatim(Verbatim(Got(read, pre, Released(out, n))), EventToken(env, ev))
  {
    StepReleases(env, n, ev, out);
    StepPending(env, n, ev, i);
    TokenPush(i, ins, EventToken(env, ev));
    AddedTexts(env, read, pre, n, ev, i, Released(out, n));
  }

  lemma StepKept(env: Env, read: Bytes -> Token, pre: seq<Token>, n: NState, ev: Event, i: int, ins: seq<Token>, out: seq<Bytes>, lost: nat, inPlace: bool)
    requires env.normalize && Reads(env, read) && Understood(env, read, ev)
    requires Kept(env, read, pre, i, ins, out, n, lost, inPlace)
    requires NStep(env, n, ev, ev.raw).verdict == Accepted
    ensures var o := NStep(env, n, ev, ev.raw);
      Kept(env, read, pre, i, ins + [EventToken(env, ev)], out + o.frames, o.state, lost + Dropped(env, n, ev, i),
           inPlace && KeepsPlace(env, n, ev, i))
  {
    var a, b := TextsOf(i, ins), TextsOf(i, Got(read, pre, Released(out, n)));
    StepTexts(env, read, pre, n, ev, i, ins, out);
    StepBlocks(env, read, n, ev);
    TextLength(env, n, ev, i, a, b);
    if InStep(a, b, Pending(n, i)) {
      TextInStep(env, n, ev, i, a, b);
    }
  }

  lemma JoinRun(env: Env, ins: seq<Token>, out: seq<Bytes>, evs: seq<Event>, a: seq<Bytes>, b: seq<Bytes>)
    requires evs != []
    ensures (ins + [EventToken(env, evs[0])]) + EventTokens(env, evs[1..]) == ins + EventTokens(env, evs)
    ensures (out + a) + b == out + (a + b)
  {
    assert EventTokens(env, evs) == [EventToken(env, evs[0])] + EventTokens(env, evs[1..]);
  }

  /** Over any accepted run, from any accounts: everything but input deltas comes out in order, the
      amount of text is accounted for, and the text is in step while nothing loses its place and
      nothing is thrown away. */
  lemma {:induction false} RunKept(env: Env, read: Bytes -> Token, pre: seq<Token>, n: NState, evs: seq<Event>, i: int, ins: seq<Token>, out: seq<Bytes>, lost: nat, inPlace: bool)
    requires env.normalize && Reads(env, read) && forall ev | ev in evs :: Understood(env, read, ev)
    requires Kept(env, read, pre, i, ins, out, n, lost, inPlace)
    requires NRun(env, n, evs).verdict == Accepted
    ensures var o := NRun(env, n, evs);
      Kept(env, read, pre, i, ins + EventTokens(env, evs), out + o.frames, o.state, lost + DroppedIn(env, n, evs, i),
           inPlace && KeepsPlaces(env, n, evs, i))
    decreases |evs|
  {
    if evs == [] {
      assert ins + EventTokens(env, evs) == ins && out + [] == out;
    } else {
      var o := NStep(env, n, evs[0], evs[0].raw);
      StepKept(env, read, pre, n, evs[0], i, ins, out, lost, inPlace);
      RunKept(env, read, pre, o.state, evs[1..], i, ins + [EventToken(env, evs[0])], out + o.frames,
              lost + Dropped(env, n, evs[0], i), inPlace && KeepsPlace(env, n, evs[0], i));
      JoinRun(env, ins, out, evs, o.frames, NRun(env, o.state, evs[1..]).frames);
    }
  }

  /** At every moment of the run, what is written and what is pending of block i is what was read. */
  ghost predicate AlwaysInStep(env: Env, read: Bytes -> Token, pre: seq<Token>, i: int, ins: seq<Token>, out: seq<Bytes>, n: NState, evs: seq<Event>)
    decreases |evs|
  {
    && InStep(TextsOf(i, ins), TextsOf(i, Got(read, pre, Released(out, n))), Pending(n, i))
    && (evs != [] ==>
          var o := NStep(env, n, evs[0], evs[0].raw);
          AlwaysInStep(env, read, pre, i, ins + [EventToken(env, evs[0])], out + o.frames, o.state, evs[1..]))
  }

  /** The condition is exact: a run that starts in step is always in step if and only if nothing of the
      block loses its place and none of its text is thrown away. */
  lemma {:induction false} InStepIff(env: Env, read: Bytes -> Token, pre: seq<Token>, n: NState, evs: seq<Event>, i: int, ins: seq<Token>, out: seq<Bytes>)
    requires env.normalize && Reads(env, read) && forall ev | ev in evs :: Understood(env, read, ev)
    requires BlocksOk(env, read, n) && InStep(TextsOf(i, ins), TextsOf(i, Got(read, pre, Released(out, n))), Pending(n, i))
    requires NRun(env, n, evs).verdict == Accepted
    ensures AlwaysInStep(env, read, pre, i, ins, out, n, evs) <==> KeepsPlaces(env, n, evs, i) && DroppedIn(env, n, evs, i) == 0
    decreases |evs|
  {
    if evs != [] {
      var o := NStep(env, n, evs[0], evs[0].raw);
      var ins2, out2 := ins + [EventToken(env, evs[0])], out + o.frames;
      StepTexts(env, read, pre, n, evs[0], i, ins, out);
      StepBlocks(env, read, n, evs[0]);
      TextInStep(env, n, evs[0], i, TextsOf(i, ins), TextsOf(i, Got(read, pre, Released(out, n))));
      if InStep(TextsOf(i, ins2), TextsOf(i, Got(read, pre, Released(out2, o.state))), Pending(o.state, i)) {
        InStepIff(env, read, pre, o.state, evs[1..], i, ins2, out2);
      }
    }
  }

  /** Nothing waits: no frame is held and no open block has undelivered deltas. */
  ghost predicate Drained(n: NState) {
    n.held.None? && forall i | i in n.blocks :: !n.blocks[i].sawInputDelta
  }

  /** The frames received carry what the events of a run from n carry: everything but input deltas
      verbatim and in order; and for every block the text between its boundaries only if no block start
      threw any of it away, and if so, whenever no ping takes it out of its place. */
  ghost predicate Conserves(env: Env, n: NState, evs: seq<Event>, sent: seq<Token>, received: seq<Token>) {
    && Verbatim(received) == Verbatim(sent)
    && forall i :: TextConserved(env, n, evs, i, TextsOf(i, sent), TextsOf(i, received))
  }

  ghost predicate TextConserved(env: Env, n: NState, evs: seq<Event>, i: int, sent: Texts, received: Texts) {
    && (received == sent ==> DroppedIn(env, n, evs, i) == 0)
    && (KeepsPlaces(env, n, evs, i) && DroppedIn(env, n, evs, i) == 0 ==> received == sent)
  }

  /** The accounts of every block are in order before a run. */
  ghost predicate StartsKept(env: Env, read: Bytes -> Token, pre: seq<Token>, ins: seq<Token>, n: NState) {
    forall i :: Kept(env, read, pre, i, ins, [], n, 0, true)
  }

  /** Every accepted run that ends with nothing waiting conserves its events, whatever went before. */
  lemma ConservationFrom(env: Env, read: Bytes -> Token, pre: seq<Token>, n: NState, evs: seq<Event>, ins: seq<Token>)
    requires env.normalize && Reads(env, read) && StartsKept(env, read, pre, ins, n)
    requires forall ev | ev in evs :: Understood(env, read, ev)
    requires NRun(env, n, evs).verdict == Accepted && Drained(NRun(env, n, evs).state)
    ensures Conserves(env, n, evs, ins + EventTokens(env, evs), Got(read, pre, NRun(env, n, evs).frames))
  {
    var o := NRun(env, n, evs);
    var sent, received := ins + EventTokens(env, evs), Got(read, pre, o.frames);
    forall i ensures TextConserved(env, n, evs, i, TextsOf(i, sent), TextsOf(i, received))
             ensures Verbatim(received) == Verbatim(sent) {
      assert Kept(env, read, pre, i, ins, [], n, 0, true);
      RunKept(env, read, pre, n, evs, i, ins, [], 0, true);
      EmptyPlus(o.frames);
      assert i in o.state.blocks ==> BlockOk(env, read, i, o.state.blocks[i]);
      assert Pending(o.state, i) == "";
      EmptyPlus(TextsOf(i, received).open);
    }
    assert TextConserved(env, n, evs, 0, TextsOf(0, sent), TextsOf(0, received));
  }

  /** Every accepted run that ends with nothing waiting conserves its events. */
  lemma Conservation(env: Env, evs: seq<Event>)
    requires env.normalize && EncoderFaithful(env) && forall ev | ev in evs :: Readable(ev)
    requires NRun(env, N_START, evs).verdict == Accepted && Drained(NRun(env, N_START, evs).state)
    ensures Conserves(env, N_START, evs, EventTokens(env, evs), Tokens(Reader(env), NRun(env, N_START, evs).frames))
  {
    ReaderReads(env);
    EmptyPlus(EventTokens(env, evs));
    EmptyPlus(Tokens(Reader(env), NRun(env, N_START, evs).frames));
    StartKept(env, Reader(env));
    ConservationFrom(env, Reader(env), [], N_START, evs, []);
  }

  lemma StartKept(env: Env, read: Bytes -> Token)
    ensures StartsKept(env, read, [], [], N_START)
  {
    forall i ensures Kept(env, read, [], i, [], [], N_START, 0, true) {
      assert Got(read, [], []) == [];
    }
  }

  /** Where as much text of a block is received as was sent, but not the same, no block start threw any
      of it away, and a ping took some of it out of its place. */
  lemma OnlyPingsReorder(env: Env, evs: seq<Event>, i: int)
    requires env.normalize && EncoderFaithful(env) && forall ev | ev in evs :: Readable(ev)
    requires NRun(env, N_START, evs).verdict == Accepted && Drained(NRun(env, N_START, evs).state)
    requires var sent, got := TextsOf(i, EventTokens(env, evs)), TextsOf(i, Tokens(Reader(env), NRun(env, N_START, evs).frames));
      sent != got && Length(sent) == Length(got)
    ensures DroppedIn(env, N_START, evs, i) == 0 && !KeepsPlaces(env, N_START, evs, i)
  {
    ReaderReads(env);
    StartKept(env, Reader(env));
    DrainedKept(env, Reader(env), evs, i);
  }

  /** The accounts of a block at the end of a run that leaves nothing waiting. */
  lemma DrainedKept(env: Env, read: Bytes -> Token, evs: seq<Event>, i: int)
    requires env.normalize && Reads(env, read) && StartsKept(env, read, [], [], N_START)
    requires forall ev | ev in evs :: Understood(env, read, ev)
    requires NRun(env, N_START, evs).verdict == Accepted && Drained(NRun(env, N_START, evs).state)
    ensures TextKept(TextsOf(i, EventTokens(env, evs)), TextsOf(i, Tokens(read, NRun(env, N_START, evs).frames)), "",
                     DroppedIn(env, N_START, evs, i), KeepsPlaces(env, N_START, evs, i))
    ensures KeepsPlaces(env, N_START, evs, i) && DroppedIn(env, N_START, evs, i) == 0 ==>
      TextsOf(i, EventTokens(env, evs)) == TextsOf(i, Tokens(read, NRun(env, N_START, evs).frames))
  {
    var o := NRun(env, N_START, evs);
    assert Kept(env, read, [], i, [], [], N_START, 0, true);
    RunKept(env, read, [], N_START, evs, i, [], [], 0, true);
    EmptyPlus(o.frames);
    EmptyPlus(EventTokens(env, evs));
    EmptyPlus(Tokens(read, o.frames));
    assert i in o.state.blocks ==> BlockOk(env, read, i, o.state.blocks[i]);
    assert Pending(o.state, i) == "";
    EmptyPlus(TextsOf(i, Tokens(read, o.frames)).open);
  }
}
