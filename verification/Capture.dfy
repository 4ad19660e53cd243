/**
 The transactional capture engine (sse.go, captureSSECore): buffer a stream while it is validated,
 and either replay it whole, commit and continue live, or give it up without a trace downstream.
 The protocol is a parameter; timers, reads and cancellation arrive in any order.
 */
module Capture {
  import opened Common
  import opened Failures
  import opened SseParser
  import SseRoundTrip
  import Spool

  // ------------------------------------------------------------------ the protocol ----

  datatype BOut<+W> = BOut(state: W, done: bool, fail: Option<Failure>)

  datatype LOut<+W> = LOut(state: W, frames: seq<Bytes>, done: bool, fail: Option<Failure>)

  datatype ReplayVerdict = Whole | OverLimit | Broken

  /** What a replay of the buffer writes, up to the fault it ends with if any. */
  datatype ROut<+W> = ROut(state: W, frames: seq<Bytes>, verdict: ReplayVerdict)

  /** One protocol (wireModel); W is what it remembers of a stream. */
  datatype Wire<!W> = Wire(
    buffered: (W, Event) -> BOut<W>, live: (W, Event) -> LOut<W>,
    replayPrefix: (W, Bytes) -> ROut<W>, replayBuffered: (W, Bytes) -> ROut<W>,
    completeOnEof: W -> bool, forwardable: W -> bool, keepalive: Bytes)

  /** Validating events one by one; the first terminal or failing event is the last one looked at. */
  function BufferedRun<W>(wire: Wire<W>, w: W, evs: seq<Event>): BOut<W> {
    if evs == [] then BOut(w, false, None) else
    var before := BufferedRun(wire, w, evs[..|evs| - 1]);
    if before.done || before.fail.Some? then before else wire.buffered(before.state, evs[|evs| - 1])
  }

  function LiveRun<W>(wire: Wire<W>, w: W, evs: seq<Event>): LOut<W> {
    if evs == [] then LOut(w, [], false, None) else
    var before := LiveRun(wire, w, evs[..|evs| - 1]);
    if before.done || before.fail.Some? then before else
    var o := wire.live(before.state, evs[|evs| - 1]);
    o.(frames := before.frames + o.frames)
  }

  lemma RunPush<W>(wire: Wire<W>, w: W, evs: seq<Event>, ev: Event)
    ensures var b := BufferedRun(wire, w, evs);
      !b.done && b.fail.None? ==> BufferedRun(wire, w, evs + [ev]) == wire.buffered(b.state, ev)
    ensures var l := LiveRun(wire, w, evs);
      !l.done && l.fail.None? ==>
        var o := wire.live(l.state, ev);
        LiveRun(wire, w, evs + [ev]) == o.(frames := l.frames + o.frames)
  {
    assert (evs + [ev])[..|evs + [ev]| - 1] == evs;
  }

  // -------------------------------------------------------------------- downstream ----

  datatype Write = Header(live: bool) | Frame(bytes: Bytes) | Keepalive(bytes: Bytes)

  /** The heartbeat of the protocols whose clients drop comments. */
  const COMMENT: Bytes := ": keepalive\n\n"

  /** The response bytes in a trace of writes, keepalives aside. */
  function Sent(trace: seq<Write>): Bytes {
    if trace == [] then "" else
    Sent(trace[..|trace| - 1]) + (if trace[|trace| - 1].Frame? then trace[|trace| - 1].bytes else "")
  }

  lemma SentPush(trace: seq<Write>, w: Write)
    ensures Sent(trace + [w]) == Sent(trace) + (if w.Frame? then w.bytes else "")
  {
    assert (trace + [w])[..|trace + [w]| - 1] == trace;
  }

  /** The response head is written first, and once. */
  ghost predicate HeaderFirst(trace: seq<Write>) {
    trace != [] ==> trace[0].Header? && forall i | 0 < i < |trace| :: !trace[i].Header?
  }

  /** The frames among these writes, one by one. */
  function Frames(ws: seq<Write>): seq<Bytes> {
    if ws == [] then [] else
    Frames(ws[..|ws| - 1]) + (if ws[|ws| - 1].Frame? then [ws[|ws| - 1].bytes] else [])
  }

  /** These frames, in order, with nothing but heartbeats k between them. */
  ghost predicate Follows(k: Bytes, ws: seq<Write>, frames: seq<Bytes>) {
    Frames(ws) == frames && forall w | w in ws :: w.Frame? || w == Keepalive(k)
  }

  /** Frames and heartbeats were written after `before`. */
  ghost predicate Extends(k: Bytes, before: seq<Write>, after: seq<Write>, frames: seq<Bytes>) {
    before <= after && Follows(k, after[|before|..], frames)
  }

  lemma ExtendsNone(k: Bytes, trace: seq<Write>)
    ensures Extends(k, trace, trace, [])
  {
  }

  lemma ExtendsPush(k: Bytes, before: seq<Write>, after: seq<Write>, frames: seq<Bytes>, w: Write)
    requires Extends(k, before, after, frames) && (w.Frame? || w == Keepalive(k))
    ensures Extends(k, before, after + [w], frames + if w.Frame? then [w.bytes] else [])
  {
    var ws := after[|before|..];
    assert (after + [w])[|before|..] == ws + [w];
    assert (ws + [w])[..|ws|] == ws;
  }

  lemma {:induction false} FramesSplit(a: seq<Write>, b: seq<Write>)
    ensures Frames(a + b) == Frames(a) + Frames(b)
    decreases |b|
  {
    if b == [] {
      assert a + b == a && Frames(a) + [] == Frames(a);
    } else {
      var init, w := b[..|b| - 1], b[|b| - 1];
      FramesSplit(a, init);
      assert (a + b)[..|a + b| - 1] == a + init;
      Assoc(Frames(a), Frames(init), if w.Frame? then [w.bytes] else []);
    }
  }

  /** The head, the replayed prefix as one frame, and then frames and heartbeats. */
  ghost predicate Shape(k: Bytes, trace: seq<Write>, prefix: Bytes, frames: seq<Bytes>) {
    |trace| >= 2 && trace[0] == Header(true) && trace[1] == Frame(prefix) && Follows(k, trace[2..], frames)
  }

  lemma ShapeMore(k: Bytes, before: seq<Write>, after: seq<Write>, prefix: Bytes, frames: seq<Bytes>, more: seq<Bytes>)
    requires Shape(k, before, prefix, frames) && Extends(k, before, after, more)
    ensures Shape(k, after, prefix, frames + more)
  {
    var ws := after[|before|..];
    assert after[2..] == before[2..] + ws;
    FramesSplit(before[2..], ws);
  }

  lemma {:induction false} FollowsSent(k: Bytes, head: seq<Write>, ws: seq<Write>)
    requires forall w | w in ws :: w.Frame? || w == Keepalive(k)
    ensures Sent(head + ws) == Sent(head) + Concat(Frames(ws))
    decreases |ws|
  {
    if ws == [] {
      assert head + ws == head && Sent(head) + "" == Sent(head);
    } else {
      var init, w := ws[..|ws| - 1], ws[|ws| - 1];
      FollowsSent(k, head, init);
      assert head + ws == (head + init) + [w];
      SentPush(head + init, w);
      if w.Frame? {
        ConcatSplit(Frames(init), [w.bytes]);
        ConcatOne(w.bytes);
        Assoc(Sent(head), Concat(Frames(init)), w.bytes);
      } else {
        EmptyPlus(Frames(init));
        EmptyPlus(Sent(head) + Concat(Frames(init)));
      }
    }
  }

  lemma ShapeSent(k: Bytes, trace: seq<Write>, prefix: Bytes, frames: seq<Bytes>)
    requires Shape(k, trace, prefix, frames)
    ensures HeaderFirst(trace) && Sent(trace) == prefix + Concat(frames)
  {
    var head := [Header(true), Frame(prefix)];
    assert trace == head + trace[2..];
    FollowsSent(k, head, trace[2..]);
    SentPush([], Header(true));
    SentPush([Header(true)], Frame(prefix));
    assert [] + [Header(true)] == [Header(true)] && [Header(true)] + [Frame(prefix)] == head;
    assert Sent(head) == prefix;
    forall i | 0 < i < |trace| ensures !trace[i].Header? {
      assert i >= 2 ==> trace[2..][i - 2] in trace[2..];
    }
  }

  lemma TwoWrites(isLive: bool, bytes: Bytes)
    ensures Sent([Header(isLive), Frame(bytes)]) == bytes
  {
    SentPush([], Header(isLive));
    SentPush([Header(isLive)], Frame(bytes));
    assert [] + [Header(isLive)] == [Header(isLive)] && [Header(isLive)] + [Frame(bytes)] == [Header(isLive), Frame(bytes)];
    assert "" + "" + bytes == bytes;
  }

  /** What reaches the client before a replay's write fails; None is a client that takes everything. */
  function Written(room: Option<nat>, b: Bytes): Bytes {
    if room.Some? && room.value < |b| then b[..room.value] else b
  }

  // -------------------------------------------------------------------- the record ----

  datatype Setup<!W> = Setup(
    wire: Wire<W>, start: W, gated: bool, earlyCommit: bool, ticking: bool, maxEvent: int,
    faults: nat -> Spool.Fault, room: Option<nat>)

  /** The history of one capture: what was buffered, what went through live, what was written. */
  datatype Ledger<+W> = Ledger(
    committed: bool, state: W, buffered: seq<Event>, live: seq<Event>, atCommit: W, trace: seq<Write>)

  datatype Result = Result(wrote: bool, fail: Option<Failure>)

  function Complete<W>(s: Setup<W>, r: ROut<W>): bool {
    r.verdict.Whole? && Written(s.room, Concat(r.frames)) == Concat(r.frames)
  }

  function ReplayFailure<W>(s: Setup<W>, r: ROut<W>): Failure {
    if r.verdict.OverLimit? && Written(s.room, Concat(r.frames)) == Concat(r.frames) then RESPONSE_TOO_LARGE
    else REPLAY_FAILED
  }

  function Prefix<W>(s: Setup<W>, l: Ledger<W>): ROut<W> {
    s.wire.replayPrefix(l.atCommit, Concat(SseRoundTrip.Raws(l.buffered)))
  }

  function LiveOf<W>(s: Setup<W>, l: Ledger<W>): LOut<W> {
    LiveRun(s.wire, Prefix(s, l).state, l.live)
  }

  /** The commit happened while nothing was terminal or wrong, and for a gated caller only once the
      buffer held something to forward. */
  ghost predicate CommittedAt<W>(s: Setup<W>, l: Ledger<W>) {
    && BufferedRun(s.wire, s.start, l.buffered) == BOut(l.atCommit, false, None)
    && (s.gated ==> s.wire.forwardable(l.atCommit))
  }

  /** After a commit, the client has the replayed prefix and then every live frame. */
  ghost predicate LiveRecord<W>(s: Setup<W>, l: Ledger<W>) {
    && CommittedAt(s, l)
    && Shape(s.wire.keepalive, l.trace, Written(s.room, Concat(Prefix(s, l).frames)), LiveOf(s, l).frames)
    && l.trace != [] && HeaderFirst(l.trace)
    && Sent(l.trace) == Written(s.room, Concat(Prefix(s, l).frames)) + Concat(LiveOf(s, l).frames)
    && (!Complete(s, Prefix(s, l)) ==> l.live == [])
  }

  /** The stream goes on. */
  ghost predicate Running<W>(s: Setup<W>, l: Ledger<W>) {
    if !l.committed then
      l.live == [] && l.trace == [] && BufferedRun(s.wire, s.start, l.buffered) == BOut(l.state, false, None)
    else
      && LiveRecord(s, l) && Complete(s, Prefix(s, l))
      && LiveOf(s, l) == LOut(l.state, LiveOf(s, l).frames, false, None)
  }

  /** The whole buffer was replayed at once, as the only thing written. */
  ghost predicate BufferedRecord<W>(s: Setup<W>, l: Ledger<W>, fail: Option<Failure>) {
    var b := BufferedRun(s.wire, s.start, l.buffered);
    var r := s.wire.replayBuffered(b.state, Concat(SseRoundTrip.Raws(l.buffered)));
    && l.live == [] && b.fail.None?
    && l.trace == [Header(false), Frame(Written(s.room, Concat(r.frames)))]
    && fail == if Complete(s, r) then None else Some(ReplayFailure(s, r))
  }

  /** The protocol declared the response complete, at its last event or at a clean end of input. */
  ghost predicate Finished<W>(s: Setup<W>, l: Ledger<W>, atEof: bool) {
    if l.committed then LiveOf(s, l).done || (atEof && s.wire.completeOnEof(LiveOf(s, l).state))
    else
      var b := BufferedRun(s.wire, s.start, l.buffered);
      b.done || (atEof && s.wire.completeOnEof(b.state))
  }

  function Init<T>(xs: seq<T>): seq<T> {
    if xs == [] then [] else xs[..|xs| - 1]
  }

  /** Nothing was looked at past the first terminal or failing event. */
  ghost predicate NothingPast<W>(s: Setup<W>, l: Ledger<W>) {
    var b := BufferedRun(s.wire, s.start, Init(l.buffered));
    var o := LiveRun(s.wire, Prefix(s, l).state, Init(l.live));
    !b.done && b.fail.None? && !o.done && o.fail.None?
  }

  predicate IsRefusal(f: Failure) {
    f.code == "refusal_fallback"
  }

  predicate Refuses(f: Option<Failure>) {
    f.Some? && IsRefusal(f.value)
  }

  /** A fault that the protocol or the replay reported is the verdict on the whole capture; only a
      refusal gives way to a fault of the storage that should have kept it. */
  ghost predicate RightVerdict<W>(s: Setup<W>, l: Ledger<W>, res: Result) {
    if l.committed then
      if !Complete(s, Prefix(s, l)) then res.fail == Some(ReplayFailure(s, Prefix(s, l)))
      else LiveOf(s, l).fail.Some? ==> res.fail == LiveOf(s, l).fail
    else
      var fail := BufferedRun(s.wire, s.start, l.buffered).fail;
      fail.Some? ==> res.fail == fail || (Refuses(fail) && res.fail in {Some(RESPONSE_TOO_LARGE), Some(SPOOL_ERROR)})
  }

  /** What holds of every ended capture. `atEof` says that the input ended cleanly, between frames. */
  ghost predicate Ended<W>(s: Setup<W>, l: Ledger<W>, res: Result, atEof: bool) {
    && HeaderFirst(l.trace)
    && (!res.wrote ==> l.trace == [] && l.live == [] && !l.committed && res.fail.Some?)
    && (l.committed ==> res.wrote && LiveRecord(s, l) && (res.fail.None? ==> Complete(s, Prefix(s, l)) && LiveOf(s, l).fail.None?))
    && (res.wrote && !l.committed ==> BufferedRecord(s, l, res.fail))
    && (res.wrote && (res.fail.None? || !l.committed) ==> Finished(s, l, atEof))
  }

  // ------------------------------------------------------------- why a capture fails ----

  /** What replaying the whole buffer writes. */
  function WholeReplay<W>(s: Setup<W>, l: Ledger<W>): ROut<W> {
    s.wire.replayBuffered(BufferedRun(s.wire, s.start, l.buffered).state, Concat(SseRoundTrip.Raws(l.buffered)))
  }

  /** The event that was looked at last made the protocol give up. */
  ghost predicate EventFailed<W>(s: Setup<W>, l: Ledger<W>, f: Failure) {
    if l.committed then Complete(s, Prefix(s, l)) && LiveOf(s, l).fail == Some(f)
    else BufferedRun(s.wire, s.start, l.buffered).fail == Some(f)
  }

  /** With the last event the buffer is over the limit, or its write to the storage had a fault. */
  ghost predicate NotKept<W>(s: Setup<W>, l: Ledger<W>, limit: int, f: Failure) {
    && !l.committed && l.buffered != []
    && if |Concat(SseRoundTrip.Raws(l.buffered))| > limit then f == RESPONSE_TOO_LARGE
       else f == SPOOL_ERROR && !s.faults(|l.buffered| - 1).NoFault?
  }

  /** This replay was cut short by the client's going, or broke off by itself. */
  predicate Breaks<W>(s: Setup<W>, r: ROut<W>, f: Failure) {
    if Written(s.room, Concat(r.frames)) != Concat(r.frames) then f == REPLAY_FAILED
    else match r.verdict
      case Whole => false
      case OverLimit => f == RESPONSE_TOO_LARGE
      case Broken => f == REPLAY_FAILED
  }

  /** The replay that was written did not get across. */
  ghost predicate ReplayBroke<W>(s: Setup<W>, l: Ledger<W>, f: Failure) {
    l.trace != [] && Breaks(s, if l.committed then Prefix(s, l) else WholeReplay(s, l), f)
  }

  /** The events and what was done with them explain the failure. */
  ghost predicate ByEvents<W>(s: Setup<W>, l: Ledger<W>, limit: int, f: Failure) {
    EventFailed(s, l, f) || NotKept(s, l, limit, f) || ReplayBroke(s, l, f)
  }

  lemma BreaksIs<W>(s: Setup<W>, r: ROut<W>)
    requires !Complete(s, r)
    ensures Breaks(s, r, ReplayFailure(s, r))
  {
  }

  /** A failure counts as delivered only where the event's own frame is what is forwarded. */
  predicate OwnFrame<W>(o: LOut<W>, ev: Event) {
    o.fail.Some? && o.fail.value.delivered ==> o.frames == [ev.raw]
  }

  /** A protocol that calls a failure delivered only then, and never before a commit. */
  ghost predicate DeliversOwn<W(!new)>(wire: Wire<W>) {
    && (forall w: W, ev: Event :: OwnFrame(wire.live(w, ev), ev))
    && (forall w: W, ev: Event :: wire.buffered(w, ev).fail.Some? ==> !wire.buffered(w, ev).fail.value.delivered)
  }

  /** The bytes end with the frame of the last live event. */
  predicate EndsWithOwn<W>(l: Ledger<W>, sent: Bytes) {
    l.committed && l.live != [] && EndsIn(sent, l.live[|l.live| - 1].raw)
  }

  predicate EndsIn(sent: Bytes, last: Bytes) {
    |last| <= |sent| && sent[|sent| - |last|..] == last
  }

  lemma LastLive<W>(wire: Wire<W>, w: W, evs: seq<Event>)
    requires evs != []
    requires var o := LiveRun(wire, w, Init(evs)); !o.done && o.fail.None?
    ensures var before := LiveRun(wire, w, Init(evs));
      var o := wire.live(before.state, evs[|evs| - 1]);
      LiveRun(wire, w, evs) == o.(frames := before.frames + o.frames)
  {
  }

  /** A failure that counts as delivered is that of the last live event, whose own frame is the last thing
      the client was sent. */
  lemma DeliveredIsOwn<W(!new)>(s: Setup<W>, l: Ledger<W>, limit: int, f: Failure)
    requires DeliversOwn(s.wire) && NothingPast(s, l) && f.delivered && ByEvents(s, l, limit, f)
    requires l.committed ==> LiveRecord(s, l)
    ensures EndsWithOwn(l, Sent(l.trace)) && LiveOf(s, l).fail == Some(f)
  {
    if l.committed {
      var w := Prefix(s, l).state;
      assert l.live != [] by {
        assert LiveRun(s.wire, w, []).fail.None?;
      }
      var before, last := LiveRun(s.wire, w, Init(l.live)), l.live[|l.live| - 1];
      LastLive(s.wire, w, l.live);
      assert OwnFrame(s.wire.live(before.state, last), last);
      ConcatSplit(before.frames, [last.raw]);
      ConcatOne(last.raw);
      var prefix := Written(s.room, Concat(Prefix(s, l).frames));
      Assoc(prefix, Concat(before.frames), last.raw);
      assert Sent(l.trace) == (prefix + Concat(before.frames)) + last.raw;
    }
  }

  /** The last event was terminal, and nothing stands in the way of what was kept: it is within the limit,
      its last write had no fault, and the replay is whole and gets across. */
  ghost predicate Deliverable<W>(s: Setup<W>, l: Ledger<W>, limit: int) {
    if l.committed then Complete(s, Prefix(s, l)) && LiveOf(s, l).done && LiveOf(s, l).fail.None?
    else
      var b := BufferedRun(s.wire, s.start, l.buffered);
      && b.done && b.fail.None? && l.buffered != []
      && |Concat(SseRoundTrip.Raws(l.buffered))| <= limit && s.faults(|l.buffered| - 1).NoFault?
      && Complete(s, WholeReplay(s, l))
  }

  lemma NotGivenUp<W>(s: Setup<W>, l: Ledger<W>, limit: int, res: Result)
    requires !l.committed && Deliverable(s, l, limit)
    requires res.fail.Some? ==> ByEvents(s, l, limit, res.fail.value) || Running(s, l)
    ensures res.fail.None?
  {
  }

  /** A deliverable response is delivered: the capture succeeds, and the client has all of its replay. */
  lemma Delivers<W>(s: Setup<W>, l: Ledger<W>, limit: int, res: Result, atEof: bool)
    requires Ended(s, l, res, atEof) && Deliverable(s, l, limit)
    requires res.fail.Some? ==> ByEvents(s, l, limit, res.fail.value) || Running(s, l)
    ensures res == Result(true, None)
    ensures Sent(l.trace) == if l.committed then Concat(Prefix(s, l).frames) + Concat(LiveOf(s, l).frames) else Concat(WholeReplay(s, l).frames)
  {
    if l.committed {
      assert !Running(s, l);
    } else {
      NotGivenUp(s, l, limit, res);
      TwoWrites(false, Concat(WholeReplay(s, l).frames));
    }
  }

  lemma RunningNothingPast<W>(s: Setup<W>, l: Ledger<W>)
    requires Running(s, l)
    ensures NothingPast(s, l)
  {
    var b := BufferedRun(s.wire, s.start, Init(l.buffered));
    assert l.buffered != [] ==> (b.done || b.fail.Some? ==> BufferedRun(s.wire, s.start, l.buffered) == b);
  }

  /** While the stream goes on, the next event is looked at. */
  lemma NextNothingPast<W>(s: Setup<W>, l: Ledger<W>, ev: Event)
    requires Running(s, l)
    ensures l.committed ==> NothingPast(s, l.(live := l.live + [ev]))
    ensures !l.committed ==> NothingPast(s, l.(buffered := l.buffered + [ev]))
  {
    RunningNothingPast(s, l);
    assert Init(l.live + [ev]) == l.live && Init(l.buffered + [ev]) == l.buffered;
    assert LiveRun(s.wire, s.wire.replayPrefix(l.atCommit, Concat(SseRoundTrip.Raws(l.buffered + [ev]))).state, Init([]))
      == LOut(s.wire.replayPrefix(l.atCommit, Concat(SseRoundTrip.Raws(l.buffered + [ev]))).state, [], false, None);
  }

  lemma StartRuns<W>(s: Setup<W>)
    ensures Running(s, Ledger(false, s.start, [], [], s.start, []))
  {
  }

  /** The moment of the commit. */
  lemma CommitStarts<W>(s: Setup<W>, l: Ledger<W>)
    requires !l.committed && Running(s, l) && (s.gated ==> s.wire.forwardable(l.state))
    ensures var r := s.wire.replayPrefix(l.state, Concat(SseRoundTrip.Raws(l.buffered)));
      var m := l.(committed := true, atCommit := l.state, state := r.state,
                  trace := [Header(true), Frame(Written(s.room, Concat(r.frames)))]);
      LiveRecord(s, m) && Prefix(s, m) == r && (Complete(s, r) ==> Running(s, m))
  {
    var r := s.wire.replayPrefix(l.state, Concat(SseRoundTrip.Raws(l.buffered)));
    var bytes := Written(s.room, Concat(r.frames));
    assert [Header(true), Frame(bytes)][2..] == [];
    ShapeSent(s.wire.keepalive, [Header(true), Frame(bytes)], bytes, []);
    EmptyPlus(bytes);
  }

  lemma LiveOfPush<W>(s: Setup<W>, l: Ledger<W>, ev: Event)
    requires l.committed && Running(s, l)
    ensures var o := s.wire.live(l.state, ev);
      && LiveRun(s.wire, Prefix(s, l).state, l.live + [ev]) == LOut(o.state, LiveOf(s, l).frames + o.frames, o.done, o.fail)
      && Concat(LiveOf(s, l).frames + o.frames) == Concat(LiveOf(s, l).frames) + Concat(o.frames)
  {
    var o := s.wire.live(l.state, ev);
    RunPush(s.wire, Prefix(s, l).state, l.live, ev);
    ConcatSplit(LiveOf(s, l).frames, o.frames);
  }

  /** One more live event, its frames written. */
  lemma LivePush<W>(s: Setup<W>, l: Ledger<W>, ev: Event, trace: seq<Write>)
    requires l.committed && Running(s, l)
    requires Extends(s.wire.keepalive, l.trace, trace, s.wire.live(l.state, ev).frames)
    ensures var o := s.wire.live(l.state, ev);
      var m := l.(live := l.live + [ev], state := o.state, trace := trace);
      && LiveRecord(s, m)
      && LiveOf(s, m) == LOut(o.state, LiveOf(s, m).frames, o.done, o.fail)
  {
    var o := s.wire.live(l.state, ev);
    var m := l.(live := l.live + [ev], state := o.state, trace := trace);
    var prefix := Written(s.room, Concat(Prefix(s, l).frames));
    LiveOfPush(s, l, ev);
    assert Prefix(s, m) == Prefix(s, l);
    ShapeMore(s.wire.keepalive, l.trace, trace, prefix, LiveOf(s, l).frames, o.frames);
    ShapeSent(s.wire.keepalive, trace, prefix, LiveOf(s, m).frames);
  }

  lemma LiveEnds<W>(s: Setup<W>, l: Ledger<W>)
    requires l.committed && LiveRecord(s, l) && Complete(s, Prefix(s, l)) && LiveOf(s, l).state == l.state
    ensures var o := LiveOf(s, l);
      if o.done || o.fail.Some? then Ended(s, l, Result(true, o.fail), false) && RightVerdict(s, l, Result(true, o.fail))
      else Running(s, l)
  {
  }

  /** Keepalives leave the record as it is. */
  lemma KeepaliveKeeps<W>(s: Setup<W>, l: Ledger<W>, trace: seq<Write>)
    requires l.committed && Running(s, l) && Extends(s.wire.keepalive, l.trace, trace, [])
    ensures Running(s, l.(trace := trace))
  {
    var prefix := Written(s.room, Concat(Prefix(s, l).frames));
    ShapeMore(s.wire.keepalive, l.trace, trace, prefix, LiveOf(s, l).frames, []);
    EmptyPlus(LiveOf(s, l).frames);
    ShapeSent(s.wire.keepalive, trace, prefix, LiveOf(s, l).frames);
  }

  lemma GiveUpBetween<W>(s: Setup<W>, l: Ledger<W>, f: Failure, atEof: bool)
    requires Running(s, l)
    ensures Ended(s, l, Result(l.committed, Some(f)), atEof) && RightVerdict(s, l, Result(l.committed, Some(f)))
  {
  }

  lemma EndedMore<W>(s: Setup<W>, l: Ledger<W>, res: Result, atEof: bool, more: bool)
    requires Ended(s, l, res, atEof) && (atEof ==> more)
    ensures Ended(s, l, res, more)
  {
  }
}
