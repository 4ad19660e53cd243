/**
 One tool block from its start to what follows its stop: what both machines make of its input, told from
 the events alone. Between its start and its stop come its fragments, and events of no tool meaning.
 */
module ToolJsonBlocks {
  import opened Common
  import opened SseParser
  import opened SseRoundTrip
  import opened ToolJson
  import opened ToolJsonDelivery
  import SseFrame

  /** The decoded payload of an event that is no message_stop; None if it has none. */
  function Carries(env: Env, ev: Event): Option<Payload> {
    if ev.data == "" || ev.name == "message_stop" then None else env.decode(ev.data)
  }

  /** The event starts block i, whose input arrives in fragments. */
  predicate Opens(env: Env, ev: Event, i: int) {
    match Carries(env, ev)
    case None => false
    case Some(p) => p.typ == "content_block_start" && p.index == i && (p.blockType == "tool_use" || p.blockType == "server_tool_use")
  }

  predicate Fragment(env: Env, ev: Event, i: int) {
    match Carries(env, ev)
    case None => false
    case Some(p) => p.typ == "content_block_delta" && p.index == i && p.deltaType == "input_json_delta"
  }

  predicate Closes(env: Env, ev: Event, i: int) {
    match Carries(env, ev)
    case None => false
    case Some(p) => p.typ == "content_block_stop" && p.index == i
  }

  /** The event says nothing of tools: it has no data, or data of another kind. */
  predicate Aside(env: Env, ev: Event) {
    ev.data == "" ||
    match Carries(env, ev)
    case None => false
    case Some(p) =>
      && p.typ != "content_block_stop"
      && (p.typ == "content_block_start" ==> p.blockType != "tool_use" && p.blockType != "server_tool_use")
      && (p.typ == "content_block_delta" ==> p.deltaType != "input_json_delta")
  }

  /** Fragments of block i, and events aside. */
  predicate Inside(env: Env, evs: seq<Event>, i: int) {
    forall ev | ev in evs :: Fragment(env, ev, i) || Aside(env, ev)
  }

  /** The text of all fragments of block i. */
  function Text(env: Env, evs: seq<Event>, i: int): Bytes {
    if evs == [] then "" else
    var ev := evs[|evs| - 1];
    Text(env, evs[..|evs| - 1], i) + if Fragment(env, ev, i) then env.decode(ev.data).value.partialJson else ""
  }

  /** The wire bytes of the fragments of block i, one by one, and of the other events. */
  function Parts(env: Env, evs: seq<Event>, i: int): seq<Bytes> {
    if evs == [] then [] else
    var ev := evs[|evs| - 1];
    Parts(env, evs[..|evs| - 1], i) + if Fragment(env, ev, i) then [ev.raw] else []
  }

  function Others(env: Env, evs: seq<Event>, i: int): seq<Bytes> {
    if evs == [] then [] else
    var ev := evs[|evs| - 1];
    Others(env, evs[..|evs| - 1], i) + if Fragment(env, ev, i) then [] else [ev.raw]
  }

  lemma Last(evs: seq<Event>)
    requires evs != []
    ensures evs == evs[..|evs| - 1] + [evs[|evs| - 1]]
  {
  }

  lemma InsideInit(env: Env, evs: seq<Event>, i: int)
    requires evs != [] && Inside(env, evs, i)
    ensures Inside(env, evs[..|evs| - 1], i) && (Fragment(env, evs[|evs| - 1], i) || Aside(env, evs[|evs| - 1]))
  {
    assert evs[|evs| - 1] in evs;
    assert forall ev | ev in evs[..|evs| - 1] :: ev in evs;
  }

  lemma PartsSize(env: Env, evs: seq<Event>, i: int)
    requires evs != []
    ensures var init, ev := evs[..|evs| - 1], evs[|evs| - 1];
      |Concat(Parts(env, evs, i))| == |Concat(Parts(env, init, i))| + if Fragment(env, ev, i) then |ev.raw| else 0
  {
    var init, ev := evs[..|evs| - 1], evs[|evs| - 1];
    ConcatSplit(Parts(env, init, i), [ev.raw]);
    ConcatOne(ev.raw);
    EmptyPlus(Parts(env, init, i));
  }

  // ---------------------------------------------------------------------- the validator ----

  /** The validator's state when block i has gathered these events. */
  function Gathered(env: Env, v: VState, evs: seq<Event>, i: int): VState
    requires i in v.blocks
  {
    var b := v.blocks[i];
    v.(blocks := v.blocks[i := VBlock(b.sawInputDelta || Parts(env, evs, i) != [], b.input + Text(env, evs, i))],
       inputBytes := v.inputBytes + |Text(env, evs, i)|)
  }

  lemma AsideSkipped(env: Env, v: VState, ev: Event)
    requires !v.truncated && Aside(env, ev)
    ensures VStep(env, v, ev) == VOut(v, Accepted)
  {
  }

  lemma FragmentGathered(env: Env, v: VState, ev: Event, i: int)
    requires !v.truncated && Fragment(env, ev, i) && i in v.blocks
    requires v.inputBytes + |env.decode(ev.data).value.partialJson| <= env.maxBytes
    ensures var text := env.decode(ev.data).value.partialJson;
      VStep(env, v, ev) == VOut(v.(blocks := v.blocks[i := VBlock(true, v.blocks[i].input + text)], inputBytes := v.inputBytes + |text|), Accepted)
  {
  }

  lemma {:induction false} Gathers(env: Env, v: VState, evs: seq<Event>, i: int)
    requires !v.truncated && i in v.blocks && Inside(env, evs, i) && v.inputBytes + |Text(env, evs, i)| <= env.maxBytes
    ensures VRun(env, v, evs) == VOut(Gathered(env, v, evs, i), Accepted)
    decreases |evs|
  {
    if evs == [] {
      assert v.blocks[i := v.blocks[i]] == v.blocks;
      EmptyPlus(v.blocks[i].input);
    } else {
      var init, ev := evs[..|evs| - 1], evs[|evs| - 1];
      Last(evs);
      InsideInit(env, evs, i);
      Gathers(env, v, init, i);
      VRunPush(env, v, init, ev);
      NextGathered(env, v, init, ev, i);
      assert init + [ev] == evs;
    }
  }

  lemma NextGathered(env: Env, v: VState, init: seq<Event>, ev: Event, i: int)
    requires !v.truncated && i in v.blocks && (Fragment(env, ev, i) || Aside(env, ev))
    requires v.inputBytes + |Text(env, init + [ev], i)| <= env.maxBytes
    ensures VStep(env, Gathered(env, v, init, i), ev) == VOut(Gathered(env, v, init + [ev], i), Accepted)
  {
    var w := Gathered(env, v, init, i);
    assert (init + [ev])[..|init + [ev]| - 1] == init;
    if Fragment(env, ev, i) {
      FragmentGathered(env, w, ev, i);
      FragmentJoins(env, v, init, ev, i);
    } else {
      AsideSkipped(env, w, ev);
      EmptyPlus(Text(env, init, i));
      EmptyPlus(Parts(env, init, i));
    }
  }

  lemma FragmentJoins(env: Env, v: VState, init: seq<Event>, ev: Event, i: int)
    requires i in v.blocks && Fragment(env, ev, i)
    ensures var w, text := Gathered(env, v, init, i), env.decode(ev.data).value.partialJson;
      w.(blocks := w.blocks[i := VBlock(true, w.blocks[i].input + text)], inputBytes := w.inputBytes + |text|)
      == Gathered(env, v, init + [ev], i)
  {
    var w, text := Gathered(env, v, init, i), env.decode(ev.data).value.partialJson;
    assert (init + [ev])[..|init + [ev]| - 1] == init;
    Assoc(v.blocks[i].input, Text(env, init, i), text);
    assert v.blocks[i := w.blocks[i]][i := VBlock(true, w.blocks[i].input + text)] == v.blocks[i := VBlock(true, w.blocks[i].input + text)];
  }

  /** A whole block within budget: the validator rejects it for the input that its start brings, if that is no
      JSON; otherwise it forgets the block, and waits for an excuse exactly if its fragments spell some text
      that is no JSON object. */
  lemma BlockVerdict(env: Env, v: VState, open: Event, evs: seq<Event>, close: Event, i: int)
    requires !v.truncated && Opens(env, open, i) && Inside(env, evs, i) && Closes(env, close, i)
    requires v.inputBytes - InputLen(v.blocks, i) + |Text(env, evs, i)| <= env.maxBytes
    ensures var text := Text(env, evs, i);
      var o := VRun(env, v, [open] + evs + [close]);
      if !env.decode(open.data).value.startInputValid then o.verdict == BadToolInput
      else o == VOut(VState(v.blocks - {i}, text != "" && !env.validObject(text), v.inputBytes - InputLen(v.blocks, i)), Accepted)
  {
    var all := [open] + evs + [close];
    assert all[0] == open && all[1..] == evs + [close];
    if env.decode(open.data).value.startInputValid {
      var w := VStep(env, v, open).state;
      Gathers(env, w, evs, i);
      VRunPush(env, w, evs, close);
      BlockEnds(env, w, evs, close, i);
      assert w.blocks - {i} == v.blocks - {i};
    }
  }

  lemma BlockEnds(env: Env, w: VState, evs: seq<Event>, close: Event, i: int)
    requires i in w.blocks && w.blocks[i] == VBlock(false, "") && !w.truncated && Closes(env, close, i)
    ensures var text := Text(env, evs, i);
      VStep(env, Gathered(env, w, evs, i), close) == VOut(VState(w.blocks - {i}, text != "" && !env.validObject(text), w.inputBytes), Accepted)
  {
    EmptyPlus(Text(env, evs, i));
    NoPartsNoText(env, evs, i);
    assert Gathered(env, w, evs, i).blocks - {i} == w.blocks - {i};
  }

  lemma {:induction false} NoPartsNoText(env: Env, evs: seq<Event>, i: int)
    ensures Parts(env, evs, i) == [] ==> Text(env, evs, i) == ""
    decreases |evs|
  {
    if evs != [] {
      NoPartsNoText(env, evs[..|evs| - 1], i);
    }
  }

  // -------------------------------------------------------------------- the normalizer ----

  /** The fragments that are kept as they came: all of them, while they spell nothing. */
  function KeptParts(env: Env, b: NBlock, evs: seq<Event>, i: int): seq<Bytes> {
    if Text(env, evs, i) == "" then b.rawDeltas + (if b.input == "" then Parts(env, evs, i) else []) else []
  }

  function Withheld(env: Env, n: NState, evs: seq<Event>, i: int): NState
    requires i in n.blocks
  {
    var b, size := n.blocks[i], |Concat(Parts(env, evs, i))|;
    n.(blocks := n.blocks[i := NBlock(b.sawInputDelta || Parts(env, evs, i) != [], b.input + Text(env, evs, i),
                                      KeptParts(env, b, evs, i), b.rawBytes + size)],
       retainedBytes := n.retainedBytes + size)
  }

  lemma AsidePasses(env: Env, n: NState, ev: Event)
    requires env.normalize && n.held.None? && Aside(env, ev)
    ensures NStep(env, n, ev, ev.raw) == NOut(n, [ev.raw], Accepted)
  {
  }

  lemma FragmentWithheld(env: Env, n: NState, ev: Event, i: int)
    requires env.normalize && n.held.None? && Fragment(env, ev, i) && i in n.blocks
    requires n.retainedBytes + |ev.raw| <= env.maxBytes
    ensures NStep(env, n, ev, ev.raw) == NOut(NDelta(n, i, env.decode(ev.data).value.partialJson, ev.raw), [], Accepted)
  {
  }

  lemma {:induction false} Withholds(env: Env, n: NState, evs: seq<Event>, i: int)
    requires env.normalize && n.held.None? && i in n.blocks && n.blocks[i].input == "" && Inside(env, evs, i)
    requires n.retainedBytes + |Concat(Parts(env, evs, i))| <= env.maxBytes
    ensures NRun(env, n, evs) == NOut(Withheld(env, n, evs, i), Others(env, evs, i), Accepted)
    decreases |evs|
  {
    if evs == [] {
      EmptyPlus(n.blocks[i].input);
      EmptyPlus(n.blocks[i].rawDeltas);
      assert n.blocks[i := n.blocks[i]] == n.blocks;
    } else {
      var init, ev := evs[..|evs| - 1], evs[|evs| - 1];
      Last(evs);
      InsideInit(env, evs, i);
      PartsSize(env, evs, i);
      Withholds(env, n, init, i);
      NRunPush(env, n, init, ev);
      EmptyPlus(Others(env, init, i));
      if Fragment(env, ev, i) {
        FragmentWithheld(env, Withheld(env, n, init, i), ev, i);
        WithheldMore(env, n, init, ev, i);
      } else {
        AsidePasses(env, Withheld(env, n, init, i), ev);
        EmptyPlus(Text(env, init, i));
        EmptyPlus(Parts(env, init, i));
      }
    }
  }

  lemma WithheldMore(env: Env, n: NState, init: seq<Event>, ev: Event, i: int)
    requires i in n.blocks && n.blocks[i].input == "" && Fragment(env, ev, i)
    ensures NDelta(Withheld(env, n, init, i), i, env.decode(ev.data).value.partialJson, ev.raw) == Withheld(env, n, init + [ev], i)
  {
    var evs, partial := init + [ev], env.decode(ev.data).value.partialJson;
    var w := Withheld(env, n, init, i);
    assert evs[..|evs| - 1] == init;
    PartsSize(env, evs, i);
    EmptyPlus(Text(env, init, i));
    Assoc(n.blocks[i].rawDeltas, Parts(env, init, i), [ev.raw]);
    assert Text(env, evs, i) == Text(env, init, i) + partial;
    assert "" + Text(env, init, i) == Text(env, init, i) && "" + Text(env, evs, i) == Text(env, evs, i);
    var last := NDelta(w, i, partial, ev.raw).blocks[i];
    assert last == Withheld(env, n, evs, i).blocks[i];
    assert n.blocks[i := w.blocks[i]][i := last] == n.blocks[i := last];
  }

  /** What block i leaves when it closes: its fragments as they came if they spell nothing, or one delta with
      all of their text; nothing yet, if that is no JSON object. */
  function Released(env: Env, evs: seq<Event>, close: Event, i: int): seq<Bytes> {
    var text := Text(env, evs, i);
    if text == "" then Parts(env, evs, i) + [close.raw]
    else if env.validObject(text) then [DeltaFrame(env, i, text), close.raw]
    else []
  }

  /** The one delta is an event of its own, under the name of a delta, for any client. */
  lemma DeltaReads(env: Env, i: int, text: Bytes)
    requires Plain(env.encodeDelta(i, text))
    ensures var e := Event("content_block_delta", env.encodeDelta(i, text), DeltaFrame(env, i, text));
      Parse(DeltaFrame(env, i, text)) == [e] && Feed(0, Fresh(true), DeltaFrame(env, i, text), true).events == [e]
  {
    SseFrame.FrameReads("content_block_delta", env.encodeDelta(i, text));
    SseFrame.FrameReadsInside("content_block_delta", env.encodeDelta(i, text));
  }

  /** What is held back when the text of the block is no JSON object. */
  function Holding(env: Env, n: NState, evs: seq<Event>, close: Event, i: int): NState {
    var t := TakeBlock(n, i);
    var text := Text(env, evs, i);
    var frames := [DeltaFrame(env, i, text), close.raw];
    if text == "" || env.validObject(text) then t
    else t.(held := Some(frames), heldBytes := |frames[0]| + |frames[1]|, retainedBytes := t.retainedBytes + |frames[0]| + |frames[1]|)
  }

  /** The budget covers the fragments of the block, and what is held of it if anything is. */
  predicate Budgeted(env: Env, n: NState, evs: seq<Event>, close: Event, i: int) {
    var base := n.retainedBytes - RawBytes(n.blocks, i);
    && base + |Concat(Parts(env, evs, i))| <= env.maxBytes
    && base + |DeltaFrame(env, i, Text(env, evs, i))| + |close.raw| <= env.maxBytes
  }

  /** A whole block within budget: its start and the events aside go through at once; its fragments come out
      right before its stop, joined into one delta, or are held back with that stop. */
  lemma BlockReplay(env: Env, n: NState, open: Event, evs: seq<Event>, close: Event, i: int)
    requires env.normalize && n.held.None? && Opens(env, open, i) && Inside(env, evs, i) && Closes(env, close, i)
    requires Budgeted(env, n, evs, close, i)
    ensures NRun(env, n, [open] + evs + [close])
      == NOut(Holding(env, n, evs, close, i), [open.raw] + Others(env, evs, i) + Released(env, evs, close, i), Accepted)
  {
    var all, w := [open] + evs + [close], Begun(n, i);
    assert all[0] == open && all[1..] == evs + [close];
    assert NStep(env, n, open, open.raw) == NOut(w, [open.raw], Accepted);
    Withholds(env, w, evs, i);
    NRunPush(env, w, evs, close);
    BlockStops(env, n, evs, close, i);
    Assoc([open.raw], Others(env, evs, i), Released(env, evs, close, i));
  }

  /** Block i begins anew. */
  function Begun(n: NState, i: int): NState {
    var t := TakeBlock(n, i);
    t.(blocks := t.blocks[i := NBlock(false, "", [], 0)])
  }

  lemma BlockStops(env: Env, n: NState, evs: seq<Event>, close: Event, i: int)
    requires env.normalize && n.held.None? && Closes(env, close, i) && Budgeted(env, n, evs, close, i)
    ensures NStep(env, Withheld(env, Begun(n, i), evs, i), close, close.raw)
      == NOut(Holding(env, n, evs, close, i), Released(env, evs, close, i), Accepted)
  {
    var w := Withheld(env, Begun(n, i), evs, i);
    NoPartsNoText(env, evs, i);
    EmptyPlus(Text(env, evs, i));
    EmptyPlus(Parts(env, evs, i));
    EmptyPlus([close.raw]);
    assert w.blocks - {i} == n.blocks - {i};
    assert TakeBlock(w, i) == TakeBlock(n, i);
  }

  // --------------------------------------------------------------------- what follows ----

  /** Pings, and records without data, say nothing of a truncated input. */
  predicate Quiet(env: Env, evs: seq<Event>) {
    forall ev | ev in evs :: ev.data == "" || (ev.name == "ping" && env.decode(ev.data).Some?)
  }

  lemma {:induction false} QuietWaits(env: Env, v: VState, evs: seq<Event>)
    requires v.truncated && Quiet(env, evs)
    ensures VRun(env, v, evs) == VOut(v, Accepted)
    decreases |evs|
  {
    if evs != [] {
      assert evs[0] in evs && forall ev | ev in evs[1..] :: ev in evs;
      QuietWaits(env, v, evs[1..]);
    }
  }

  /** While a truncated input waits, the next event that says something decides: the stream is accepted if and
      only if that event declares that a token or context limit was reached. */
  lemma OnlyLimitsExcuse(env: Env, v: VState, quiet: seq<Event>, ev: Event)
    requires v.truncated && Quiet(env, quiet)
    requires ev.data != "" && env.decode(ev.data).Some? && ev.name != "ping"
    ensures VRun(env, v, quiet + [ev]).verdict.Accepted?
      <==> Excuses(env, ev) && !(ev.name == "message_stop" && SomeInput(v.blocks))
  {
    QuietWaits(env, v, quiet);
    VRunPush(env, v, quiet, ev);
  }

  /** At a message_stop of which no input waits, the stream is accepted if and only if no block has input that
      never closed. */
  lemma StopVerdict(env: Env, v: VState, ev: Event)
    requires !v.truncated && ev.name == "message_stop" && ev.data != ""
    requires env.decode(ev.data).Some? && env.decode(ev.data).value.typ == "message_stop"
    ensures VStep(env, v, ev).verdict.Accepted? <==> forall i | i in v.blocks :: !v.blocks[i].sawInputDelta
  {
  }

  predicate Pings(env: Env, evs: seq<Event>) {
    forall ev | ev in evs :: ev.name == "ping" && (ev.data == "" || env.decode(ev.data).Some?)
  }

  /** The normalizer's state when these pings have come while it holds frames back. */
  function HeldOn(n: NState, pings: seq<Event>): NState
    requires n.held.Some?
  {
    var size := |Concat(Raws(pings))|;
    n.(held := Some(n.held.value + Raws(pings)), retainedBytes := n.retainedBytes + size, heldBytes := n.heldBytes + size)
  }

  lemma {:induction false} PingsHeld(env: Env, n: NState, pings: seq<Event>)
    requires env.normalize && n.held.Some? && Pings(env, pings) && n.retainedBytes + |Concat(Raws(pings))| <= env.maxBytes
    ensures NRun(env, n, pings) == NOut(HeldOn(n, pings), [], Accepted)
    decreases |pings|
  {
    if pings == [] {
      EmptyPlus(n.held.value);
    } else {
      var init, ev := pings[..|pings| - 1], pings[|pings| - 1];
      Last(pings);
      assert ev in pings && forall e | e in init :: e in pings;
      HeldMore(n, init, ev);
      PingsHeld(env, n, init);
      NRunPush(env, n, init, ev);
      PingHeld(env, HeldOn(n, init), ev);
    }
  }

  lemma PingHeld(env: Env, n: NState, ev: Event)
    requires env.normalize && n.held.Some? && Pings(env, [ev]) && n.retainedBytes + |ev.raw| <= env.maxBytes
    ensures var m := n.(held := Some(n.held.value + [ev.raw]), retainedBytes := n.retainedBytes + |ev.raw|, heldBytes := n.heldBytes + |ev.raw|);
      NStep(env, n, ev, ev.raw) == NOut(m, [], Accepted)
  {
    assert ev in [ev];
  }

  lemma HeldMore(n: NState, init: seq<Event>, ev: Event)
    requires n.held.Some?
    ensures |Concat(Raws(init + [ev]))| == |Concat(Raws(init))| + |ev.raw|
    ensures var m := HeldOn(n, init);
      HeldOn(n, init + [ev])
      == m.(held := Some(m.held.value + [ev.raw]), retainedBytes := m.retainedBytes + |ev.raw|, heldBytes := m.heldBytes + |ev.raw|)
  {
    assert Raws(init + [ev]) == Raws(init) + [ev.raw];
    ConcatSplit(Raws(init), [ev.raw]);
    ConcatOne(ev.raw);
    Assoc(n.held.value, Raws(init), [ev.raw]);
  }

  /** What is held back comes out, with the pings since and the deciding event behind it, if and only if that
      event declares such a limit; otherwise none of it ever does. */
  lemma OnlyLimitsRelease(env: Env, n: NState, pings: seq<Event>, ev: Event)
    requires env.normalize && n.held.Some? && Pings(env, pings) && n.retainedBytes + |Concat(Raws(pings))| <= env.maxBytes
    requires ev.data != "" && env.decode(ev.data).Some? && ev.name != "ping"
    ensures var o := NRun(env, n, pings + [ev]);
      if Excuses(env, ev) then
        o.verdict.Accepted? && o.frames == n.held.value + Raws(pings) + [ev.raw]
        && o.state == n.(held := None, heldBytes := 0, retainedBytes := n.retainedBytes - n.heldBytes)
      else o.verdict == BadToolInput && o.frames == []
  {
    PingsHeld(env, n, pings);
    NRunSplit(env, n, pings, [ev]);
    NRunOne(env, HeldOn(n, pings), ev);
  }
}
