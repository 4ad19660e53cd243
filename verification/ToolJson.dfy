/**
 Tool input in an Anthropic stream (sse.go): the validator that decides whether the accumulated
 input_json_delta fragments are JSON, and the replay normalizer that withholds, joins and releases
 the same fragments. Decoding one event's JSON is given by the environment.
 */
module ToolJson {
  import opened Common
  import opened SseParser
  import SseFrame

  /** The decoded fields of one event's data. */
  datatype Payload = Payload(
    typ: Bytes, index: int, blockType: Bytes, startInputValid: bool,
    deltaType: Bytes, partialJson: Bytes, stopReason: Bytes)

  /** The zero payload, standing for an event without data. */
  const NO_PAYLOAD := Payload("", 0, "", true, "", "", "")

  /** The JSON library and the configuration. `encodeDelta` is the JSON text of a joined delta. */
  datatype Env = Env(
    decode: Bytes -> Option<Payload>, validObject: Bytes -> bool, encodeDelta: (int, Bytes) -> Bytes,
    maxBytes: int, normalize: bool)

  datatype Verdict = Accepted | BadJson | BadToolInput | TooLarge

  datatype TruncVerdict = TruncReject | TruncWait | TruncExcused

  /** What an invalid tool input means, judged from the event right after its block closed. */
  function Judge(name: Bytes, p: Payload): TruncVerdict {
    if name == "ping" then TruncWait
    else if p.typ == "message_delta" && p.stopReason in {"max_tokens", "model_context_window_exceeded"} then TruncExcused
    else TruncReject
  }

  predicate UsesInputJson(blockType: Bytes) {
    blockType == "tool_use" || blockType == "server_tool_use"
  }

  // ---------------------------------------------------------------- the validator ----

  datatype VBlock = VBlock(sawInputDelta: bool, input: Bytes)

  datatype VState = VState(blocks: map<int, VBlock>, truncated: bool, inputBytes: int)

  datatype VOut = VOut(state: VState, verdict: Verdict)

  const V_START := VState(map[], false, 0)

  predicate SomeInput(blocks: map<int, VBlock>) {
    exists i :: i in blocks && blocks[i].sawInputDelta
  }

  function InputLen(blocks: map<int, VBlock>, i: int): nat {
    if i in blocks then |blocks[i].input| else 0
  }

  function VStep(env: Env, v: VState, ev: Event): VOut {
    if ev.data == "" then VOut(v, Accepted) else
    match env.decode(ev.data)
    case None => VOut(v, BadJson)
    case Some(p) =>
      if ev.name == "message_stop" && SomeInput(v.blocks) then VOut(v, BadToolInput)
      else if v.truncated then
        match Judge(ev.name, p)
        case TruncWait => VOut(v, Accepted)
        case TruncExcused => VOut(v.(truncated := false), Accepted)
        case TruncReject => VOut(v, BadToolInput)
      else match p.typ
        case "content_block_start" =>
          if !UsesInputJson(p.blockType) then VOut(v, Accepted)
          else if !p.startInputValid then VOut(v, BadToolInput)
          else VOut(v.(inputBytes := v.inputBytes - InputLen(v.blocks, p.index),
                       blocks := v.blocks[p.index := VBlock(false, "")]), Accepted)
        case "content_block_delta" =>
          if p.deltaType != "input_json_delta" then VOut(v, Accepted)
          else if |p.partialJson| > env.maxBytes - v.inputBytes then VOut(v, TooLarge)
          else
            var held := if p.index in v.blocks then v.blocks[p.index].input else "";
            VOut(v.(blocks := v.blocks[p.index := VBlock(true, held + p.partialJson)],
                    inputBytes := v.inputBytes + |p.partialJson|), Accepted)
        case "content_block_stop" =>
          if p.index !in v.blocks then VOut(v, Accepted) else
          var b := v.blocks[p.index];
          VOut(VState(v.blocks - {p.index},
                      b.sawInputDelta && b.input != "" && !env.validObject(b.input),
                      v.inputBytes - |b.input|), Accepted)
        case _ => VOut(v, Accepted)
  }

  /** A whole event sequence, stopping at the first event that is not accepted. */
  function VRun(env: Env, v: VState, evs: seq<Event>): VOut
    decreases |evs|
  {
    if evs == [] then VOut(v, Accepted) else
    var o := VStep(env, v, evs[0]);
    if o.verdict == Accepted then VRun(env, o.state, evs[1..]) else o
  }

  lemma {:induction false} VRunSplit(env: Env, v: VState, a: seq<Event>, b: seq<Event>)
    requires VRun(env, v, a).verdict.Accepted?
    ensures VRun(env, v, a + b) == VRun(env, VRun(env, v, a).state, b)
    decreases |a|
  {
    if a == [] {
      assert a + b == b;
    } else {
      assert (a + b)[0] == a[0] && (a + b)[1..] == a[1..] + b;
      VRunSplit(env, VStep(env, v, a[0]).state, a[1..], b);
    }
  }

  lemma VRunPush(env: Env, v: VState, evs: seq<Event>, ev: Event)
    requires VRun(env, v, evs).verdict.Accepted?
    ensures VRun(env, v, evs + [ev]) == VStep(env, VRun(env, v, evs).state, ev)
  {
    VRunSplit(env, v, evs, [ev]);
    assert [ev][1..] == [];
  }

  // --------------------------------------------------------------- the normalizer ----

  /** The frame that stands for all the fragments of one block (toolInputDeltaEvent). */
  function DeltaFrame(env: Env, index: int, text: Bytes): Bytes {
    SseFrame.Frame("content_block_delta", env.encodeDelta(index, text))
  }

  datatype NBlock = NBlock(sawInputDelta: bool, input: Bytes, rawDeltas: seq<Bytes>, rawBytes: nat)

  /** `held` is the joined delta and stop of a block with invalid input, and any pings since. */
  datatype NState = NState(blocks: map<int, NBlock>, retainedBytes: int, held: Option<seq<Bytes>>, heldBytes: int)

  datatype NOut = NOut(state: NState, frames: seq<Bytes>, verdict: Verdict)

  const N_START := NState(map[], 0, None, 0)

  function RawBytes(blocks: map<int, NBlock>, i: int): nat {
    if i in blocks then blocks[i].rawBytes else 0
  }

  /** Forget the block at i and what it retained. */
  function TakeBlock(n: NState, i: int): NState {
    n.(blocks := n.blocks - {i}, retainedBytes := n.retainedBytes - RawBytes(n.blocks, i))
  }

  function NDelta(n: NState, i: int, partial: Bytes, raw: Bytes): NState {
    var b := if i in n.blocks then n.blocks[i] else NBlock(false, "", [], 0);
    var deltas :=
      if partial != "" then [] else if b.input == "" then b.rawDeltas + [raw] else b.rawDeltas;
    n.(blocks := n.blocks[i := NBlock(true, b.input + partial, deltas, b.rawBytes + |raw|)],
       retainedBytes := n.retainedBytes + |raw|)
  }

  function NStop(env: Env, n: NState, i: int, raw: Bytes): NOut {
    if i !in n.blocks || !n.blocks[i].sawInputDelta then NOut(TakeBlock(n, i), [raw], Accepted) else
    var b := n.blocks[i];
    var t := TakeBlock(n, i);
    var joined := DeltaFrame(env, i, b.input);
    if b.input == "" then NOut(t, b.rawDeltas + [raw], Accepted)
    else if env.validObject(b.input) then NOut(t, [joined, raw], Accepted)
    else
      var size := |joined| + |raw|;
      if size > env.maxBytes - t.retainedBytes then NOut(t, [], TooLarge)
      else NOut(t.(held := Some([joined, raw]), heldBytes := size, retainedBytes := t.retainedBytes + size), [], Accepted)
  }

  /** While frames are held, the next event decides about them. */
  function NHeld(env: Env, n: NState, name: Bytes, p: Payload, raw: Bytes): NOut
    requires n.held.Some?
  {
    match Judge(name, p)
    case TruncWait =>
      if |raw| > env.maxBytes - n.retainedBytes then NOut(n, [], TooLarge)
      else NOut(n.(held := Some(n.held.value + [raw]), retainedBytes := n.retainedBytes + |raw|,
                   heldBytes := n.heldBytes + |raw|), [], Accepted)
    case TruncExcused =>
      NOut(n.(held := None, retainedBytes := n.retainedBytes - n.heldBytes, heldBytes := 0), n.held.value + [raw], Accepted)
    case TruncReject => NOut(n, [], BadToolInput)
  }

  function NStep(env: Env, n: NState, ev: Event, raw: Bytes): NOut {
    if !env.normalize then NOut(n, [raw], Accepted)
    else if ev.data != "" && env.decode(ev.data).None? then NOut(n, [], BadJson)
    else
      var p := if ev.data == "" then NO_PAYLOAD else env.decode(ev.data).value;
      if n.held.Some? then NHeld(env, n, ev.name, p, raw)
      else if ev.data == "" then NOut(n, [raw], Accepted)
      else match p.typ
        case "content_block_start" =>
          if !UsesInputJson(p.blockType) then NOut(n, [raw], Accepted) else
          var t := TakeBlock(n, p.index);
          NOut(t.(blocks := t.blocks[p.index := NBlock(false, "", [], 0)]), [raw], Accepted)
        case "content_block_delta" =>
          if p.deltaType != "input_json_delta" then NOut(n, [raw], Accepted)
          else if |raw| > env.maxBytes - n.retainedBytes then NOut(n, [], TooLarge)
          else NOut(NDelta(n, p.index, p.partialJson, raw), [], Accepted)
        case "content_block_stop" => NStop(env, n, p.index, raw)
        case _ => NOut(n, [raw], Accepted)
  }

  function NRun(env: Env, n: NState, evs: seq<Event>): NOut
    decreases |evs|
  {
    if evs == [] then NOut(n, [], Accepted) else
    var o := NStep(env, n, evs[0], evs[0].raw);
    if o.verdict != Accepted then o else
    var rest := NRun(env, o.state, evs[1..]);
    NOut(rest.state, o.frames + rest.frames, rest.verdict)
  }

  lemma {:induction false} NRunSplit(env: Env, n: NState, a: seq<Event>, b: seq<Event>)
    ensures var x := NRun(env, n, a);
      NRun(env, n, a + b) ==
      if x.verdict != Accepted then x
      else NOut(NRun(env, x.state, b).state, x.frames + NRun(env, x.state, b).frames, NRun(env, x.state, b).verdict)
    decreases |a|
  {
    if a == [] {
      assert a + b == b;
    } else {
      var o := NStep(env, n, a[0], a[0].raw);
      assert (a + b)[0] == a[0] && (a + b)[1..] == a[1..] + b;
      if o.verdict == Accepted {
        NRunSplit(env, o.state, a[1..], b);
        var y := NRun(env, o.state, a[1..]);
        assert o.frames + (y.frames + NRun(env, y.state, b).frames) == (o.frames + y.frames) + NRun(env, y.state, b).frames;
      }
    }
  }

  lemma NRunOne(env: Env, n: NState, ev: Event)
    ensures NRun(env, n, [ev]) == NStep(env, n, ev, ev.raw)
  {
    var o := NStep(env, n, ev, ev.raw);
    assert [ev][1..] == [] && o.frames + [] == o.frames;
  }

  lemma NRunPush(env: Env, n: NState, evs: seq<Event>, ev: Event)
    requires NRun(env, n, evs).verdict.Accepted?
    ensures var x := NRun(env, n, evs);
      var o := NStep(env, x.state, ev, ev.raw);
      NRun(env, n, evs + [ev]) == o.(frames := x.frames + o.frames)
  {
    NRunSplit(env, n, evs, [ev]);
    NRunOne(env, NRun(env, n, evs).state, ev);
  }

  lemma SomeMember(s: set<int>)
    requires s != {}
    ensures exists i :: i in s
  {
    assert (forall i :: i !in s) ==> s == {};
  }

  // ---------------------------------------------------------------------- classes ----

  class Validator {
    const env: Env
    var blocks: map<int, VBlock>
    var truncated: bool
    var inputBytes: int

    function State(): VState
      reads this
    {
      VState(blocks, truncated, inputBytes)
    }

    constructor (env: Env)
      ensures this.env == env && State() == V_START
    {
      this.env := env;
      blocks, truncated, inputBytes := map[], false, 0;
    }

    /** Does any open block hold input? */
    method AnyInput() returns (found: bool)
      ensures found <==> SomeInput(blocks)
    {
      var rest := blocks.Keys;
      while rest != {}
        invariant rest <= blocks.Keys
        invariant forall i | i in blocks.Keys - rest :: !blocks[i].sawInputDelta
        decreases rest
      {
        SomeMember(rest);
        var i :| i in rest;
        if blocks[i].sawInputDelta {
          return true;
        }
        rest := rest - {i};
      }
      return false;
    }

    method Accept(ev: Event) returns (verdict: Verdict)
      modifies this
      ensures VOut(State(), verdict) == VStep(env, old(State()), ev)
    {
      if ev.data == "" {
        return Accepted;
      }
      var decoded := env.decode(ev.data);
      if decoded.None? {
        return BadJson;
      }
      var p := decoded.value;
      if ev.name == "message_stop" {
        var some := AnyInput();
        if some {
          return BadToolInput;
        }
      }
      if truncated {
        match Judge(ev.name, p) {
          case TruncWait =>
          case TruncExcused => truncated := false;
          case TruncReject => return BadToolInput;
        }
        return Accepted;
      }
      if p.typ == "content_block_start" && UsesInputJson(p.blockType) {
        if !p.startInputValid {
          return BadToolInput;
        }
        if p.index in blocks {
          inputBytes := inputBytes - |blocks[p.index].input|;
        }
        blocks := blocks[p.index := VBlock(false, "")];
      } else if p.typ == "content_block_delta" && p.deltaType == "input_json_delta" {
        if |p.partialJson| > env.maxBytes - inputBytes {
          return TooLarge;
        }
        if p.index !in blocks {
          blocks := blocks[p.index := VBlock(false, "")];
        }
        var b := blocks[p.index];
        blocks := blocks[p.index := VBlock(true, b.input + p.partialJson)];
        inputBytes := inputBytes + |p.partialJson|;
      } else if p.typ == "content_block_stop" && p.index in blocks {
        var b := blocks[p.index];
        if b.sawInputDelta && |b.input| > 0 && !env.validObject(b.input) {
          truncated := true;
        }
        inputBytes := inputBytes - |b.input|;
        blocks := blocks - {p.index};
      }
      return Accepted;
    }
  }

  class Normalizer {
    const env: Env
    var blocks: map<int, NBlock>
    var retainedBytes: int
    var held: Option<seq<Bytes>>
    var heldBytes: int

    function State(): NState
      reads this
    {
      NState(blocks, retainedBytes, held, heldBytes)
    }

    constructor (env: Env)
      ensures this.env == env && State() == N_START
    {
      this.env := env;
      blocks, retainedBytes, held, heldBytes := map[], 0, None, 0;
    }

    method Take(index: int) returns (b: Option<NBlock>)
      modifies this`blocks, this`retainedBytes
      ensures State() == TakeBlock(old(State()), index)
      ensures b == if index in old(blocks) then Some(old(blocks)[index]) else None
    {
      if index !in blocks {
        assert blocks - {index} == blocks;
        return None;
      }
      b := Some(blocks[index]);
      retainedBytes := retainedBytes - blocks[index].rawBytes;
      blocks := blocks - {index};
    }

    method AcceptHeld(name: Bytes, p: Payload, raw: Bytes) returns (frames: seq<Bytes>, verdict: Verdict)
      requires held.Some?
      modifies this
      ensures NOut(State(), frames, verdict) == NHeld(env, old(State()), name, p, raw)
    {
      match Judge(name, p) {
        case TruncWait =>
          if |raw| > env.maxBytes - retainedBytes {
            return [], TooLarge;
          }
          held := Some(held.value + [raw]);
          retainedBytes := retainedBytes + |raw|;
          heldBytes := heldBytes + |raw|;
          return [], Accepted;
        case TruncExcused =>
          frames := held.value + [raw];
          held := None;
          retainedBytes := retainedBytes - heldBytes;
          heldBytes := 0;
          return frames, Accepted;
        case TruncReject =>
          return [], BadToolInput;
      }
    }

    method AcceptDelta(index: int, partial: Bytes, raw: Bytes)
      modifies this
      ensures State() == NDelta(old(State()), index, partial, raw)
    {
      if index !in blocks {
        blocks := blocks[index := NBlock(false, "", [], 0)];
      }
      var b := blocks[index].(sawInputDelta := true);
      if partial != "" {
        b := b.(rawDeltas := [], input := b.input + partial);
      } else if b.input == "" {
        b := b.(rawDeltas := b.rawDeltas + [raw]);
      }
      assert old(State().blocks) == blocks || index !in old(blocks);
      blocks := blocks[index := b.(rawBytes := b.rawBytes + |raw|)];
      retainedBytes := retainedBytes + |raw|;
      assert partial == "" ==> b.input + partial == b.input;
    }

    method AcceptStop(index: int, raw: Bytes) returns (frames: seq<Bytes>, verdict: Verdict)
      modifies this
      ensures NOut(State(), frames, verdict) == NStop(env, old(State()), index, raw)
    {
      var b := Take(index);
      if b.None? || !b.value.sawInputDelta {
        return [raw], Accepted;
      }
      if b.value.input == "" {
        return b.value.rawDeltas + [raw], Accepted;
      }
      var joined := DeltaFrame(env, index, b.value.input);
      if !env.validObject(b.value.input) {
        var size := |joined| + |raw|;
        if size > env.maxBytes - retainedBytes {
          return [], TooLarge;
        }
        held, heldBytes := Some([joined, raw]), size;
        retainedBytes := retainedBytes + size;
        return [], Accepted;
      }
      return [joined, raw], Accepted;
    }

    /** The frames to forward now for one event whose wire bytes are `raw`. */
    method Accept(ev: Event, raw: Bytes) returns (frames: seq<Bytes>, verdict: Verdict)
      modifies this
      ensures NOut(State(), frames, verdict) == NStep(env, old(State()), ev, raw)
    {
      if !env.normalize {
        return [raw], Accepted;
      }
      var p := NO_PAYLOAD;
      if ev.data != "" {
        var decoded := env.decode(ev.data);
        if decoded.None? {
          return [], BadJson;
        }
        p := decoded.value;
      }
      if held.Some? {
        frames, verdict := AcceptHeld(ev.name, p, raw);
        return;
      }
      if ev.data == "" {
        return [raw], Accepted;
      }
      if p.typ == "content_block_start" {
        if UsesInputJson(p.blockType) {
          var dropped := Take(p.index);
          blocks := blocks[p.index := NBlock(false, "", [], 0)];
        }
        return [raw], Accepted;
      } else if p.typ == "content_block_delta" && p.deltaType == "input_json_delta" {
        if |raw| > env.maxBytes - retainedBytes {
          return [], TooLarge;
        }
        AcceptDelta(p.index, p.partialJson, raw);
        return [], Accepted;
      } else if p.typ == "content_block_stop" {
        frames, verdict := AcceptStop(p.index, raw);
        return;
      }
      return [raw], Accepted;
    }
  }
}
