/** The byte budget of both machines: what they count is what they hold, and it stays within the cap. */
module ToolJsonBudget {
  import opened Common
  import opened SseParser
  import SseFrame
  import opened ToolJson

  /** The sum of all values of a map. */
  ghost function Sum(m: map<int, nat>): nat
    decreases |m|
  {
    if m.Keys == {} then 0 else
    SomeMember(m.Keys);
    var k :| k in m.Keys;
    m[k] + Sum(m - {k})
  }

  function At(m: map<int, nat>, k: int): nat {
    if k in m then m[k] else 0
  }

  /** The key that the definition of Sum picks. */
  lemma SumPick(m: map<int, nat>) returns (j: int)
    requires m.Keys != {}
    ensures j in m && Sum(m) == m[j] + Sum(m - {j})
  {
    SomeMember(m.Keys);
    j :| j in m.Keys && Sum(m) == m[j] + Sum(m - {j});
  }

  lemma Remove(m: map<int, nat>, j: int, k: int)
    requires j in m
    ensures |m - {j}| < |m|
    ensures m - {j} - {k} == m - {k} - {j}
  {
    assert (m - {j}).Keys == m.Keys - {j};
  }

  lemma {:induction false} SumWithout(m: map<int, nat>, k: int)
    ensures Sum(m) == At(m, k) + Sum(m - {k})
    decreases |m|
  {
    if k !in m {
      assert m - {k} == m;
    } else {
      var j := SumPick(m);
      if j != k {
        Remove(m, j, k);
        Remove(m, k, j);
        SumWithout(m - {j}, k);
        SumWithout(m - {k}, j);
        assert At(m - {j}, k) == m[k] && At(m - {k}, j) == m[j];
      }
    }
  }

  lemma SumUpdate(m: map<int, nat>, k: int, x: nat)
    ensures Sum(m[k := x]) == Sum(m) - At(m, k) + x
  {
    SumWithout(m, k);
    SumWithout(m[k := x], k);
    assert m[k := x] - {k} == m - {k};
  }

  // ---------------------------------------------------------------- the validator ----

  function InputLens(blocks: map<int, VBlock>): map<int, nat> {
    map i | i in blocks :: |blocks[i].input|
  }

  ghost predicate VBudget(env: Env, v: VState) {
    v.inputBytes == Sum(InputLens(v.blocks)) && v.inputBytes <= env.maxBytes
  }

  lemma VPut(blocks: map<int, VBlock>, i: int, b: VBlock)
    ensures Sum(InputLens(blocks[i := b])) == Sum(InputLens(blocks)) - InputLen(blocks, i) + |b.input|
  {
    SumUpdate(InputLens(blocks), i, |b.input|);
    assert InputLens(blocks[i := b]) == InputLens(blocks)[i := |b.input|];
  }

  lemma VTake(blocks: map<int, VBlock>, i: int)
    ensures Sum(InputLens(blocks - {i})) == Sum(InputLens(blocks)) - InputLen(blocks, i)
  {
    SumWithout(InputLens(blocks), i);
    assert InputLens(blocks - {i}) == InputLens(blocks) - {i};
  }

  lemma VStepBudget(env: Env, v: VState, ev: Event)
    requires VBudget(env, v)
    ensures VBudget(env, VStep(env, v, ev).state)
  {
    if ev.data != "" && env.decode(ev.data).Some? {
      var p := env.decode(ev.data).value;
      if p.typ == "content_block_start" {
        VPut(v.blocks, p.index, VBlock(false, ""));
      } else if p.typ == "content_block_delta" {
        VPut(v.blocks, p.index, VBlock(true, (if p.index in v.blocks then v.blocks[p.index].input else "") + p.partialJson));
      } else if p.typ == "content_block_stop" {
        VTake(v.blocks, p.index);
      }
    }
  }

  /** Over any event sequence the validator's counter is the total decoded input of the open blocks,
      and it never passes the cap. */
  lemma {:induction false} VRunBudget(env: Env, v: VState, evs: seq<Event>)
    requires VBudget(env, v)
    ensures VBudget(env, VRun(env, v, evs).state)
    decreases |evs|
  {
    if evs != [] {
      VStepBudget(env, v, evs[0]);
      VRunBudget(env, VStep(env, v, evs[0]).state, evs[1..]);
    }
  }

  // --------------------------------------------------------------- the normalizer ----

  function RawLens(blocks: map<int, NBlock>): map<int, nat> {
    map i | i in blocks :: blocks[i].rawBytes
  }

  /** What is counted is the wire size of everything withheld, and it stays within the cap. */
  ghost predicate NBudget(env: Env, n: NState) {
    && n.retainedBytes == Sum(RawLens(n.blocks)) + n.heldBytes && n.retainedBytes <= env.maxBytes
    && n.heldBytes == (if n.held.Some? then |Concat(n.held.value)| else 0)
    && forall i | i in n.blocks ::
         && |Concat(n.blocks[i].rawDeltas)| <= n.blocks[i].rawBytes
         && (n.blocks[i].input != "" ==> n.blocks[i].rawDeltas == [])
  }

  lemma ConcatPush(parts: seq<Bytes>, p: Bytes)
    ensures |Concat(parts + [p])| == |Concat(parts)| + |p|
  {
    ConcatSplit(parts, [p]);
    ConcatOne(p);
  }

  lemma TakeBudget(n: NState, i: int)
    ensures Sum(RawLens(TakeBlock(n, i).blocks)) == Sum(RawLens(n.blocks)) - RawBytes(n.blocks, i)
  {
    SumWithout(RawLens(n.blocks), i);
    assert RawLens(n.blocks - {i}) == RawLens(n.blocks) - {i};
  }

  lemma PutBudget(blocks: map<int, NBlock>, i: int, b: NBlock)
    ensures Sum(RawLens(blocks[i := b])) == Sum(RawLens(blocks)) - RawBytes(blocks, i) + b.rawBytes
  {
    SumUpdate(RawLens(blocks), i, b.rawBytes);
    assert RawLens(blocks[i := b]) == RawLens(blocks)[i := b.rawBytes];
  }

  lemma NDeltaBudget(env: Env, n: NState, i: int, partial: Bytes, raw: Bytes)
    requires NBudget(env, n) && |raw| <= env.maxBytes - n.retainedBytes
    ensures NBudget(env, NDelta(n, i, partial, raw))
  {
    var after := NDelta(n, i, partial, raw).blocks[i];
    PutBudget(n.blocks, i, after);
    if i in n.blocks {
      ConcatPush(n.blocks[i].rawDeltas, raw);
    } else {
      ConcatPush([], raw);
    }
  }

  lemma TakeKeepsBudget(env: Env, n: NState, i: int)
    requires NBudget(env, n)
    ensures NBudget(env, TakeBlock(n, i))
  {
    TakeBudget(n, i);
  }

  lemma HoldBudget(env: Env, t: NState, joined: Bytes, raw: Bytes)
    requires NBudget(env, t) && t.held.None?
    requires |joined| + |raw| <= env.maxBytes - t.retainedBytes
    ensures var size := |joined| + |raw|;
      NBudget(env, t.(held := Some([joined, raw]), heldBytes := size, retainedBytes := t.retainedBytes + size))
  {
    assert [joined, raw] == [joined] + [raw];
    ConcatPush([joined], raw);
    ConcatOne(joined);
  }

  lemma NStopBudget(env: Env, n: NState, i: int, raw: Bytes)
    requires NBudget(env, n) && n.held.None?
    ensures NBudget(env, NStop(env, n, i, raw).state)
  {
    TakeKeepsBudget(env, n, i);
    var o := NStop(env, n, i, raw);
    if o.state.held.Some? {
      HoldBudget(env, TakeBlock(n, i), DeltaFrame(env, i, n.blocks[i].input), raw);
    }
  }

  lemma NHeldBudget(env: Env, n: NState, name: Bytes, p: Payload, raw: Bytes)
    requires NBudget(env, n) && n.held.Some?
    ensures NBudget(env, NHeld(env, n, name, p, raw).state)
  {
    ConcatPush(n.held.value, raw);
  }

  lemma NStepBudget(env: Env, n: NState, ev: Event)
    requires NBudget(env, n)
    ensures NBudget(env, NStep(env, n, ev, ev.raw).state)
  {
    if env.normalize && (ev.data == "" || env.decode(ev.data).Some?) {
      var p := if ev.data == "" then NO_PAYLOAD else env.decode(ev.data).value;
      if n.held.Some? {
        NHeldBudget(env, n, ev.name, p, ev.raw);
      } else if ev.data != "" {
        if p.typ == "content_block_start" {
          var t := TakeBlock(n, p.index);
          TakeBudget(n, p.index);
          PutBudget(t.blocks, p.index, NBlock(false, "", [], 0));
        } else if p.typ == "content_block_delta" && p.deltaType == "input_json_delta" {
          if |ev.raw| <= env.maxBytes - n.retainedBytes {
            NDeltaBudget(env, n, p.index, p.partialJson, ev.raw);
          }
        } else if p.typ == "content_block_stop" {
          NStopBudget(env, n, p.index, ev.raw);
        }
      }
    }
  }

  /** Over any event sequence, failing or not, the normalizer's counter is the wire size of all it
      withholds, covers every fragment kept verbatim, and never passes the cap. */
  lemma {:induction false} NRunBudget(env: Env, n: NState, evs: seq<Event>)
    requires NBudget(env, n)
    ensures NBudget(env, NRun(env, n, evs).state)
    decreases |evs|
  {
    if evs != [] {
      NStepBudget(env, n, evs[0]);
      NRunBudget(env, NStep(env, n, evs[0], evs[0].raw).state, evs[1..]);
    }
  }

  lemma StartBudgets(env: Env)
    requires env.maxBytes >= 0
    ensures VBudget(env, V_START) && NBudget(env, N_START)
  {
    assert InputLens(V_START.blocks) == map[] && RawLens(N_START.blocks) == map[];
  }

  // --------------------------------------------------- the decoded input of open blocks ----

  /** The wire bytes of every open block bound its decoded input. */
  ghost predicate DecodedWithin(n: NState) {
    forall i | i in n.blocks :: |n.blocks[i].input| <= n.blocks[i].rawBytes
  }

  /** A fragment that the normalizer keeps, and whose text is longer than the frame it came in. */
  predicate Swells(env: Env, ev: Event) {
    && ev.data != "" && env.decode(ev.data).Some?
    && var p := env.decode(ev.data).value;
       p.typ == "content_block_delta" && p.deltaType == "input_json_delta" && |ev.raw| <= env.maxBytes && |ev.raw| < |p.partialJson|
  }

  lemma StepWithin(env: Env, n: NState, ev: Event)
    requires DecodedWithin(n) && n.retainedBytes >= 0 && !Swells(env, ev)
    ensures DecodedWithin(NStep(env, n, ev, ev.raw).state)
  {
  }

  lemma {:induction false} RunWithin(env: Env, n: NState, evs: seq<Event>)
    requires DecodedWithin(n) && NBudget(env, n) && forall ev | ev in evs :: !Swells(env, ev)
    ensures DecodedWithin(NRun(env, n, evs).state)
    decreases |evs|
  {
    if evs != [] {
      assert evs[0] in evs;
      StepWithin(env, n, evs[0]);
      NStepBudget(env, n, evs[0]);
      RunWithin(env, NStep(env, n, evs[0], evs[0].raw).state, evs[1..]);
    }
  }

  lemma SwellingBreaks(env: Env, ev: Event)
    requires env.normalize && Swells(env, ev)
    ensures !DecodedWithin(NRun(env, N_START, [ev]).state)
  {
    var i := env.decode(ev.data).value.index;
    var o := NStep(env, N_START, ev, ev.raw);
    assert i in o.state.blocks && o.state.blocks[i].rawBytes == |ev.raw|;
    assert o.state.blocks[i].input == "" + env.decode(ev.data).value.partialJson;
    assert [ev][1..] == [];
  }

  ghost predicate DrawnFrom(evs: seq<Event>, events: set<Event>) {
    forall ev | ev in evs :: ev in events
  }

  /** Wire bytes bound decoded input in every run over these events if and only if none of them swells
      when it is decoded. */
  lemma WireBoundsDecoded(env: Env, events: set<Event>)
    requires env.normalize && env.maxBytes >= 0
    ensures (forall evs | DrawnFrom(evs, events) :: DecodedWithin(NRun(env, N_START, evs).state))
      <==> forall ev | ev in events :: !Swells(env, ev)
  {
    if forall evs | DrawnFrom(evs, events) :: DecodedWithin(NRun(env, N_START, evs).state) {
      forall ev | ev in events ensures !Swells(env, ev) {
        assert DrawnFrom([ev], events);
        if Swells(env, ev) {
          SwellingBreaks(env, ev);
        }
      }
    }
    if forall ev | ev in events :: !Swells(env, ev) {
      StartBudgets(env);
      forall evs | DrawnFrom(evs, events) ensures DecodedWithin(NRun(env, N_START, evs).state) {
        RunWithin(env, N_START, evs);
      }
    }
  }

  // ------------------------------------------------------- a fragment that swells, concretely ----

  /** Text of n bytes that are no UTF-8. */
  function Invalid(n: nat): (b: Bytes)
    ensures |b| == n
  {
    seq(n, i requires 0 <= i < n => '\U{FF}')
  }

  /** What such text decodes to: the three bytes of the replacement character for each of its bytes. */
  function Replaced(n: nat): (b: Bytes)
    ensures |b| == 3 * n
  {
    if n == 0 then "" else Replaced(n - 1) + "\U{EF}\U{BF}\U{BD}"
  }

  /** The data of one fragment that carries such text. */
  function SwellingData(): (b: Bytes)
    ensures 0 < |b| <= 300
  {
    "{\"type\":\"content_block_delta\",\"delta\":{\"type\":\"input_json_delta\",\"partial_json\":\"" + Invalid(200) + "\"}}"
  }

  function CoercingDecode(data: Bytes): Option<Payload> {
    if data != SwellingData() then None else
    Some(NO_PAYLOAD.(typ := "content_block_delta", deltaType := "input_json_delta", partialJson := Replaced(200)))
  }

  const COERCING_ENV := Env(CoercingDecode, (s: Bytes) => false, (i: int, s: Bytes) => "J", 1000, true)

  function Swelling(): (ev: Event)
    ensures ev.name == "content_block_delta" && ev.data == SwellingData() && |ev.raw| <= 400
  {
    Event("content_block_delta", SwellingData(), SseFrame.Frame("content_block_delta", SwellingData()))
  }

  /** One accepted fragment of invalid UTF-8 that takes more room decoded than all that is counted. */
  lemma InvalidTextSwells()
    ensures VRun(COERCING_ENV, V_START, [Swelling()]).verdict == Accepted
    ensures var o := NRun(COERCING_ENV, N_START, [Swelling()]);
      o.verdict == Accepted && 0 in o.state.blocks && |o.state.blocks[0].input| > o.state.retainedBytes
  {
    var ev := Swelling();
    var o := NStep(COERCING_ENV, N_START, ev, ev.raw);
    assert o.state.blocks[0].input == "" + Replaced(200);
    assert [ev][1..] == [];
  }
}
