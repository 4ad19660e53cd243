/**
 What the normalizer promises a client about tool input: one delta per block, right before the stop
 of that block, and never JSON that is not an object unless the stream declared its limit reached.
 */
module ToolJsonDelivery {
  import opened Common
  import opened SseParser
  import opened ToolJson
  import opened ToolJsonConservation
  import opened ToolJsonLockstep

  /** The stream declares that a token or context limit cut the answer. */
  predicate Excuses(env: Env, ev: Event) {
    && ev.name != "ping" && ev.data != "" && env.decode(ev.data).Some?
    && var p := env.decode(ev.data).value;
       p.typ == "message_delta" && (p.stopReason == "max_tokens" || p.stopReason == "model_context_window_exceeded")
  }

  ghost predicate StopFrame(env: Env, seen: seq<Event>, frame: Bytes, i: int) {
    exists ev | ev in seen :: ev.raw == frame && IsStop(env, ev) && EventToken(env, ev).index == i
  }

  ghost predicate PingFrame(seen: seq<Event>, frame: Bytes) {
    exists ev | ev in seen :: ev.raw == frame && ev.name == "ping"
  }

  ghost predicate ExcuseFrame(env: Env, seen: seq<Event>, frame: Bytes) {
    exists ev | ev in seen :: ev.raw == frame && Excuses(env, ev)
  }

  /** After the delta at k and its stop: only pings, then the frame at m that declares the limit. */
  ghost predicate ExcusedAt(env: Env, seen: seq<Event>, frames: seq<Bytes>, k: int, m: int) {
    0 <= k && k + 2 <= m < |frames| && ExcuseFrame(env, seen, frames[m]) && forall q | k + 2 <= q < m :: PingFrame(seen, frames[q])
  }

  /** The frame at k, if it carries input, is complete: its block's stop follows at once, and the
      input is an object or is excused by what follows the stop. Only a ping that brings input of its
      own, while frames are held, is passed on as it came. */
  ghost predicate InputComplete(env: Env, read: Bytes -> Token, seen: seq<Event>, frames: seq<Bytes>, k: nat)
    requires k < |frames|
  {
    read(frames[k]).Delta? && read(frames[k]).text != "" && !PingFrame(seen, frames[k]) ==>
      && k + 1 < |frames| && StopFrame(env, seen, frames[k + 1], read(frames[k]).index)
      && (env.validObject(read(frames[k]).text) || exists m :: ExcusedAt(env, seen, frames, k, m))
  }

  ghost predicate AllComplete(env: Env, read: Bytes -> Token, seen: seq<Event>, frames: seq<Bytes>) {
    forall k | 0 <= k < |frames| :: InputComplete(env, read, seen, frames, k)
  }

  /** Held frames: a joined delta, the stop of its block, and pings. */
  ghost predicate HeldOk(env: Env, read: Bytes -> Token, seen: seq<Event>, n: NState) {
    n.held.Some? ==>
      var h := n.held.value;
      && |h| >= 2 && read(h[0]).Delta? && StopFrame(env, seen, h[1], read(h[0]).index)
      && !read(h[1]).Delta?
      && forall q | 2 <= q < |h| :: PingFrame(seen, h[q])
  }

  lemma SeenMore(env: Env, read: Bytes -> Token, seen: seq<Event>, ev: Event, frames: seq<Bytes>, more: seq<Bytes>, k: nat)
    requires k < |frames| && InputComplete(env, read, seen, frames, k)
    ensures InputComplete(env, read, seen + [ev], frames + more, k)
  {
    var all := frames + more;
    assert all[k] == frames[k];
    if read(frames[k]).Delta? && read(frames[k]).text != "" && !PingFrame(seen, frames[k]) {
      assert all[k + 1] == frames[k + 1];
      if !env.validObject(read(frames[k]).text) {
        var m :| ExcusedAt(env, seen, frames, k, m);
        assert all[m] == frames[m];
        assert forall q | k + 2 <= q < m :: all[q] == frames[q];
        assert ExcusedAt(env, seen + [ev], all, k, m);
      }
    }
  }

  lemma HeldMore(env: Env, read: Bytes -> Token, seen: seq<Event>, ev: Event, n: NState)
    requires HeldOk(env, read, seen, n)
    ensures HeldOk(env, read, seen + [ev], n)
  {
  }

  /** The new frames of one accepted event are complete among themselves. */
  lemma StepComplete(env: Env, read: Bytes -> Token, n: NState, ev: Event, seen: seq<Event>)
    requires env.normalize && Reads(env, read) && Understood(env, read, ev) && BlocksOk(env, read, n)
    requires HeldOk(env, read, seen, n)
    requires NStep(env, n, ev, ev.raw).verdict == Accepted
    ensures AllComplete(env, read, seen + [ev], NStep(env, n, ev, ev.raw).frames)
    ensures HeldOk(env, read, seen + [ev], NStep(env, n, ev, ev.raw).state)
  {
    var o := NStep(env, n, ev, ev.raw);
    HeldMore(env, read, seen, ev, n);
    assert ev in seen + [ev];
    if n.held.Some? {
      var h := n.held.value;
      if o.state.held.None? {
        assert o.frames == h + [ev.raw] && o.frames[|h|] == ev.raw;
        assert forall q | 0 <= q < |h| :: o.frames[q] == h[q];
        assert ExcuseFrame(env, seen + [ev], ev.raw);
        assert ExcusedAt(env, seen + [ev], o.frames, 0, |h|);
        forall k | 0 <= k < |o.frames| ensures InputComplete(env, read, seen + [ev], o.frames, k) {
          assert 2 <= k < |h| ==> PingFrame(seen, h[k]);
        }
      }
    } else if IsStop(env, ev) {
      var i := EventToken(env, ev).index;
      assert StopFrame(env, seen + [ev], ev.raw, i);
      StopComplete(env, read, n, ev, i, seen + [ev]);
    } else {
      assert o.frames == [] || o.frames == [ev.raw];
    }
  }

  lemma StopComplete(env: Env, read: Bytes -> Token, n: NState, ev: Event, i: int, seen: seq<Event>)
    requires env.normalize && Reads(env, read) && Understood(env, read, ev) && BlocksOk(env, read, n) && n.held.None?
    requires EventToken(env, ev) == Boundary(i, ev.raw) && StopFrame(env, seen, ev.raw, i)
    requires NStop(env, n, i, ev.raw).verdict == Accepted
    ensures AllComplete(env, read, seen, NStop(env, n, i, ev.raw).frames)
    ensures HeldOk(env, read, seen, NStop(env, n, i, ev.raw).state)
  {
    var o := NStop(env, n, i, ev.raw);
    if i in n.blocks && n.blocks[i].sawInputDelta {
      assert BlockOk(env, read, i, n.blocks[i]);
      if n.blocks[i].input == "" {
        var deltas := n.blocks[i].rawDeltas;
        forall k | 0 <= k < |o.frames| ensures InputComplete(env, read, seen, o.frames, k) {
          assert k < |deltas| ==> o.frames[k] in deltas;
        }
      } else {
        assert read(DeltaFrame(env, i, n.blocks[i].input)) == Delta(i, n.blocks[i].input);
      }
    }
  }

  lemma {:induction false} RunComplete(env: Env, read: Bytes -> Token, n: NState, evs: seq<Event>, seen: seq<Event>, out: seq<Bytes>)
    requires env.normalize && Reads(env, read) && forall ev | ev in evs :: Understood(env, read, ev)
    requires BlocksOk(env, read, n) && HeldOk(env, read, seen, n) && AllComplete(env, read, seen, out)
    ensures AllComplete(env, read, seen + evs, out + NRun(env, n, evs).frames)
    decreases |evs|
  {
    if evs == [] {
      assert seen + evs == seen && out + [] == out;
    } else {
      var o := NStep(env, n, evs[0], evs[0].raw);
      if o.verdict != Accepted {
        assert o.frames == [] && out + o.frames == out;
        AllSeenMore(env, read, seen, evs, out);
      } else {
        StepComplete(env, read, n, evs[0], seen);
        StepBlocks(env, read, n, evs[0]);
        JoinComplete(env, read, seen, evs[0], out, o.frames);
        RunComplete(env, read, o.state, evs[1..], seen + [evs[0]], out + o.frames);
        assert (seen + [evs[0]]) + evs[1..] == seen + evs;
        var rest := NRun(env, o.state, evs[1..]);
        assert (out + o.frames) + rest.frames == out + (o.frames + rest.frames);
      }
    }
  }

  lemma {:induction false} AllSeenMore(env: Env, read: Bytes -> Token, seen: seq<Event>, evs: seq<Event>, out: seq<Bytes>)
    requires AllComplete(env, read, seen, out)
    ensures AllComplete(env, read, seen + evs, out)
    decreases |evs|
  {
    if evs == [] {
      assert seen + evs == seen;
    } else {
      JoinComplete(env, read, seen, evs[0], out, []);
      assert out + [] == out;
      AllSeenMore(env, read, seen + [evs[0]], evs[1..], out);
      assert (seen + [evs[0]]) + evs[1..] == seen + evs;
    }
  }

  lemma JoinComplete(env: Env, read: Bytes -> Token, seen: seq<Event>, ev: Event, out: seq<Bytes>, frames: seq<Bytes>)
    requires AllComplete(env, read, seen, out) && AllComplete(env, read, seen + [ev], frames)
    ensures AllComplete(env, read, seen + [ev], out + frames)
  {
    var all := out + frames;
    forall k | 0 <= k < |all| ensures InputComplete(env, read, seen + [ev], all, k) {
      if k < |out| {
        SeenMore(env, read, seen, ev, out, frames, k);
      } else {
        Shifted(env, read, seen + [ev], out, frames, k - |out|);
      }
    }
  }

  lemma Shifted(env: Env, read: Bytes -> Token, seen: seq<Event>, out: seq<Bytes>, frames: seq<Bytes>, k: nat)
    requires k < |frames| && InputComplete(env, read, seen, frames, k)
    ensures InputComplete(env, read, seen, out + frames, |out| + k)
  {
    var all := out + frames;
    assert forall q | 0 <= q < |frames| :: all[|out| + q] == frames[q];
    if read(frames[k]).Delta? && read(frames[k]).text != "" && !PingFrame(seen, frames[k]) && !env.validObject(read(frames[k]).text) {
      var m :| ExcusedAt(env, seen, frames, k, m);
      forall q | |out| + k + 2 <= q < |out| + m ensures PingFrame(seen, all[q]) {
        assert all[q] == frames[q - |out|];
      }
      assert ExcusedAt(env, seen, all, |out| + k, |out| + m);
    }
  }

  /** In every run, failing or not, each delta with input that a client receives is directly followed
      by the stop of its block, and its text is a JSON object unless, after pings only, the frame
      that declares token or context exhaustion follows; a ping that brings input of its own aside. */
  lemma Delivery(env: Env, evs: seq<Event>)
    requires env.normalize && EncoderFaithful(env) && forall ev | ev in evs :: Readable(ev)
    ensures AllComplete(env, Reader(env), evs, NRun(env, N_START, evs).frames)
  {
    ReaderReads(env);
    RunComplete(env, Reader(env), N_START, evs, [], []);
    EmptyPlus(evs);
    EmptyPlus(NRun(env, N_START, evs).frames);
  }

  /** A stream the validator accepts up to its message_stop leaves nothing waiting in the normalizer. */
  lemma MessageStopDrains(env: Env, evs: seq<Event>, last: Event)
    requires env.normalize
    requires last.name == "message_stop" && last.data != ""
    requires env.decode(last.data).Some? ==> env.decode(last.data).value.typ == "message_stop"
    requires VRun(env, V_START, evs + [last]).verdict == Accepted && NRun(env, N_START, evs + [last]).verdict == Accepted
    ensures Drained(NRun(env, N_START, evs + [last]).state)
  {
    Lockstep(env, V_START, N_START, evs + [last]);
    VRunLast(env, V_START, evs, last);
  }

  lemma {:induction false} VRunLast(env: Env, v: VState, evs: seq<Event>, last: Event)
    requires VRun(env, v, evs + [last]).verdict == Accepted
    ensures VRun(env, v, evs).verdict == Accepted
    ensures VStep(env, VRun(env, v, evs).state, last) == VRun(env, v, evs + [last])
    decreases |evs|
  {
    if evs == [] {
      assert evs + [last] == [last] && [last][1..] == [];
    } else {
      assert (evs + [last])[1..] == evs[1..] + [last];
      VRunLast(env, VStep(env, v, evs[0]).state, evs[1..], last);
    }
  }
}
