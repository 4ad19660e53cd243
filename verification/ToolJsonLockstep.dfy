/** The validator and the normalizer agree: what the one accepts, the other can replay. */
module ToolJsonLockstep {
  import opened Common
  import opened SseParser
  import opened ToolJson

  /** The two machines hold the same open blocks, and one waits exactly when the other does. */
  ghost predicate Linked(v: VState, n: NState) {
    && (v.truncated <==> n.held.Some?)
    && v.blocks.Keys == n.blocks.Keys
    && forall i | i in v.blocks :: v.blocks[i].sawInputDelta == n.blocks[i].sawInputDelta && v.blocks[i].input == n.blocks[i].input
  }

  /** A record without data (only `id` or `retry`) that arrives while a truncated input waits: the
      validator lets it pass, the normalizer takes it for the deciding event. */
  predicate Strands(v: VState, ev: Event) {
    v.truncated && ev.data == "" && ev.name != "ping"
  }

  /** Some event of the sequence strands the replay. */
  predicate SomeStrands(env: Env, v: VState, evs: seq<Event>)
    decreases |evs|
  {
    evs != [] && (Strands(v, evs[0]) || SomeStrands(env, VStep(env, v, evs[0]).state, evs[1..]))
  }

  lemma LockStep(env: Env, v: VState, n: NState, ev: Event)
    requires env.normalize && Linked(v, n)
    requires VStep(env, v, ev).verdict == Accepted && NStep(env, n, ev, ev.raw).verdict != TooLarge
    ensures Strands(v, ev) ==> NStep(env, n, ev, ev.raw).verdict == BadToolInput
    ensures !Strands(v, ev) ==>
      NStep(env, n, ev, ev.raw).verdict == Accepted && Linked(VStep(env, v, ev).state, NStep(env, n, ev, ev.raw).state)
  {
  }

  /** Over a stream the validator accepts, and within the byte budget, replay fails if and only if
      some record strands it, and then with exactly the invalid-tool-input error. Otherwise the two
      machines still agree at the end. */
  lemma {:induction false} Lockstep(env: Env, v: VState, n: NState, evs: seq<Event>)
    requires env.normalize && Linked(v, n)
    requires VRun(env, v, evs).verdict == Accepted && NRun(env, n, evs).verdict != TooLarge
    ensures NRun(env, n, evs).verdict == if SomeStrands(env, v, evs) then BadToolInput else Accepted
    ensures !SomeStrands(env, v, evs) ==> Linked(VRun(env, v, evs).state, NRun(env, n, evs).state)
    decreases |evs|
  {
    if evs != [] {
      LockStep(env, v, n, evs[0]);
      if !Strands(v, evs[0]) {
        Lockstep(env, VStep(env, v, evs[0]).state, NStep(env, n, evs[0], evs[0].raw).state, evs[1..]);
      }
    }
  }

  /** The shape check that runs before the validator (validateSSEEventShape). */
  predicate WellShaped(ev: Event) {
    (ev.name == "ping" && ev.data == "") || (ev.name == "" <==> ev.data == "")
  }

  /** With the shape check in front, only a record that carries neither a name nor data can strand a
      replay. */
  lemma OnlyBareRecordsStrand(v: VState, ev: Event)
    requires WellShaped(ev)
    ensures Strands(v, ev) <==> v.truncated && ev.name == "" && ev.data == ""
  {
  }

  /** The record at k carries neither a name nor data, and arrives while a truncated input waits. */
  predicate BareWhileWaiting(env: Env, v: VState, evs: seq<Event>, k: nat) {
    k < |evs| && evs[k].name == "" && evs[k].data == "" && VRun(env, v, evs[..k]).state.truncated
  }

  lemma BareLater(env: Env, v: VState, evs: seq<Event>, k: nat)
    requires 0 < k < |evs| && VStep(env, v, evs[0]).verdict.Accepted?
    ensures BareWhileWaiting(env, v, evs, k) <==> BareWhileWaiting(env, VStep(env, v, evs[0]).state, evs[1..], k - 1)
  {
    assert evs[..k][1..] == evs[1..][..k - 1] && evs[..k][0] == evs[0];
  }

  /** Over a well-shaped stream that the validator accepts, some record strands the replay if and only
      if a bare record arrives while a truncated input waits. */
  lemma {:induction false} StrandsAt(env: Env, v: VState, evs: seq<Event>)
    requires VRun(env, v, evs).verdict.Accepted? && forall ev | ev in evs :: WellShaped(ev)
    ensures SomeStrands(env, v, evs) <==> exists k :: BareWhileWaiting(env, v, evs, k)
    decreases |evs|
  {
    if evs != [] {
      var rest := VStep(env, v, evs[0]).state;
      OnlyBareRecordsStrand(v, evs[0]);
      StrandsAt(env, rest, evs[1..]);
      assert Strands(v, evs[0]) <==> BareWhileWaiting(env, v, evs, 0);
      forall k: nat | 0 < k < |evs|
        ensures BareWhileWaiting(env, v, evs, k) <==> BareWhileWaiting(env, rest, evs[1..], k - 1) {
        BareLater(env, v, evs, k);
      }
      if k: nat :| BareWhileWaiting(env, rest, evs[1..], k) {
        BareLater(env, v, evs, k + 1);
        assert BareWhileWaiting(env, v, evs, k + 1);
      }
    }
  }

  // ------------------------------------------------------------ the failure, concretely ----

  /** A decoder for the events of the example below. */
  function ExampleDecode(data: Bytes): Option<Payload> {
    match data
    case "D" => Some(NO_PAYLOAD.(typ := "content_block_delta", deltaType := "input_json_delta", partialJson := "{"))
    case "S" => Some(NO_PAYLOAD.(typ := "content_block_stop"))
    case "M" => Some(NO_PAYLOAD.(typ := "message_delta", stopReason := "max_tokens"))
    case _ => None
  }

  const EXAMPLE_ENV := Env(ExampleDecode, (s: Bytes) => false, (i: int, s: Bytes) => "J", 100, true)

  const EXAMPLE: seq<Event> := [
    Event("content_block_delta", "D", "d"), Event("content_block_stop", "S", "s"),
    Event("", "", "id: 1\n\n"), Event("message_delta", "M", "m")]

  /** Input cut off by max_tokens with an `id:` record in between: valid, yet it cannot be replayed;
      without that record both machines accept. */
  lemma BareRecordBreaksReplay()
    ensures VRun(EXAMPLE_ENV, V_START, EXAMPLE).verdict == Accepted
    ensures NRun(EXAMPLE_ENV, N_START, EXAMPLE).verdict == BadToolInput
    ensures NRun(EXAMPLE_ENV, N_START, EXAMPLE[..2] + EXAMPLE[3..]).verdict == Accepted
  {
    var env := EXAMPLE_ENV;
    var n1 := NStep(env, N_START, EXAMPLE[0], "d").state;
    var n2 := NStep(env, n1, EXAMPLE[1], "s").state;
    assert n1.blocks[0].input == "{" && n1.retainedBytes == 1;
    assert n2.held == Some([DeltaFrame(env, 0, "{"), "s"]);
    var v1 := VStep(env, V_START, EXAMPLE[0]).state;
    var v2 := VStep(env, v1, EXAMPLE[1]).state;
    assert v1.blocks[0].input == "{" && v2.truncated;
    assert EXAMPLE[2..][1..] == [EXAMPLE[3]];
    assert VRun(env, v2, EXAMPLE[2..]).verdict == Accepted by {
      assert VRun(env, v2, [EXAMPLE[3]]).verdict == Accepted;
    }
    assert EXAMPLE[1..][1..] == EXAMPLE[2..];
    assert VRun(env, v1, EXAMPLE[1..]) == VRun(env, v2, EXAMPLE[2..]);
    assert NRun(env, n2, EXAMPLE[2..]).verdict == BadToolInput;
    assert NRun(env, n1, EXAMPLE[1..]).verdict == BadToolInput;
    var good := EXAMPLE[..2] + EXAMPLE[3..];
    assert good[1..][1..] == [EXAMPLE[3]];
    assert NRun(env, n2, [EXAMPLE[3]]).verdict == Accepted;
    assert NRun(env, n1, good[1..]).verdict == Accepted;
  }
}
