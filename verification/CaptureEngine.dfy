/** The capture loop and its event processing (sse.go, captureSSECore, process, replayCaptured). */
module CaptureEngine {
  import opened Common
  import opened Failures
  import opened SseParser
  import opened Capture
  import SseRoundTrip
  import Spool

  datatype ReadErr = NoErr | CleanEof | UnexpectedEof | Broke(message: Bytes)

  datatype Context = Alive | DeadlineExceeded | Canceled

  /** One turn of the select loop: whichever was ready. */
  datatype Turn =
    | Read(data: Bytes, err: ReadErr, ctx: Context)
    | KeepTick
    | IdleTick
    | ContextDone(ctx: Context)

  /** How a read that ended the input without a complete response is reported (onReadErr). */
  function ReadFailure(err: ReadErr, ctx: Context): Failure {
    match ctx
    case DeadlineExceeded => DEADLINE
    case Canceled => CLIENT_GONE
    case Alive =>
      if err.CleanEof? || err.UnexpectedEof? then TRUNCATED_STREAM
      else if err.Broke? then STREAM_READ_ERROR.(message := err.message)
      else STREAM_READ_ERROR
  }

  function SpoolFailure(r: Spool.Result): Failure {
    if r.TooLarge? then RESPONSE_TOO_LARGE else SPOOL_ERROR
  }

  lemma RawsPush(evs: seq<Event>, ev: Event)
    ensures SseRoundTrip.Raws(evs + [ev]) == SseRoundTrip.Raws(evs) + [ev.raw]
    ensures Concat(SseRoundTrip.Raws(evs + [ev])) == Concat(SseRoundTrip.Raws(evs)) + ev.raw
  {
    assert SseRoundTrip.Raws(evs + [ev]) == SseRoundTrip.Raws(evs) + [ev.raw];
    ConcatSplit(SseRoundTrip.Raws(evs), [ev.raw]);
    ConcatOne(ev.raw);
  }

  lemma PrefixGrows(before: seq<Event>, events: seq<Event>, k: nat)
    requires k < |events|
    ensures (before + events[..k]) + [events[k]] == before + events[..k + 1]
    ensures before + events[..k + 1] <= before + events
  {
  }

  lemma PushLast(a: seq<Event>, b: seq<Event>, ev: Event)
    ensures a + (b + [ev]) == (a + b) + [ev]
  {
  }

  /** Judgments as values: a contract that names a predicate is proved conjunct by conjunct, one that names a
      value is proved, and used, as a whole. */
  datatype Judgment = Judgment(goesOn: bool, isOver: bool)

  datatype Account = Account(holds: bool)

  /** The bytes that a number of turns read. */
  function BytesRead(turns: seq<Turn>): Bytes {
    if turns == [] then "" else
    BytesRead(turns[..|turns| - 1]) + (if turns[|turns| - 1].Read? then turns[|turns| - 1].data else "")
  }

  /** The input ended in this turn, by itself and with the client still there. */
  predicate CleanEnd(turn: Turn) {
    turn.Read? && turn.err.CleanEof? && turn.ctx.Alive?
  }

  /** The input has ended, one way or another. */
  predicate InputEnd(turn: Turn) {
    turn.Read? && !turn.err.NoErr?
  }

  /** Why a turn may end a capture that no event ended; `complete` says that the input ended cleanly, between
      frames, and with a complete response. */
  predicate CutOff(turn: Turn, complete: bool, f: Failure) {
    match turn
    case IdleTick => f == UPSTREAM_IDLE
    case ContextDone(ctx) => f == if ctx.DeadlineExceeded? then DEADLINE else CLIENT_GONE
    case Read(_, err, ctx) => !err.NoErr? && f == ReadFailure(err, ctx) && !complete
    case KeepTick => false
  }

  /** The keepalive timer has fired in these turns, and is on. */
  predicate Ticked(ticking: bool, turns: seq<Turn>) {
    ticking && KeepTick in turns
  }

  /** After this turn a capture in wire state w is no longer kept back: a tick found it, and it may go, or
      it may go early. */
  predicate DueAt<W>(s: Setup<W>, w: W, turn: Turn, ticked: bool) {
    match turn
    case KeepTick => s.ticking && (s.gated ==> s.wire.forwardable(w))
    case Read(_, err, _) => err.NoErr? && s.wire.forwardable(w) && (s.earlyCommit || (s.gated && ticked))
    case _ => false
  }

  /** The events of the first n turns. */
  function EventsBy<W>(s: Setup<W>, turns: seq<Turn>, n: nat): seq<Event>
    requires n <= |turns|
  {
    Run(s.maxEvent, Fresh(false), BytesRead(turns[..n])).events
  }

  predicate Due<W>(s: Setup<W>, turns: seq<Turn>, j: nat)
    requires j < |turns|
  {
    DueAt(s, BufferedRun(s.wire, s.start, EventsBy(s, turns, j + 1)).state, turns[j], Ticked(s.ticking, turns[..j]))
  }

  /** Of these turns, j is the first after which a capture is due. */
  ghost predicate FirstDue<W>(s: Setup<W>, turns: seq<Turn>, j: nat)
    requires j < |turns|
  {
    Due(s, turns, j) && forall i: nat | i < j :: !Due(s, turns, i)
  }

  /** A capture is committed with the first turn after which it is due, its buffer being what was read by
      then; one that is not committed was not due after any of the first `passed` turns. */
  ghost predicate OnTime<W>(s: Setup<W>, committed: bool, buffered: seq<Event>, turns: seq<Turn>, taken: nat, passed: nat)
    requires passed <= taken <= |turns|
  {
    if committed then exists j: nat :: j < taken && FirstDue(s, turns, j) && buffered == EventsBy(s, turns, j + 1)
    else forall j: nat | j < passed :: !Due(s, turns, j)
  }

  /** A capture that may not commit early is committed only by a tick, or after one. */
  lemma HoldsBack<W>(s: Setup<W>, buffered: seq<Event>, turns: seq<Turn>, taken: nat, passed: nat)
    requires passed <= taken <= |turns| && OnTime(s, true, buffered, turns, taken, passed)
    ensures s.earlyCommit || Ticked(s.ticking, turns[..taken])
  {
    var j: nat :| j < taken && FirstDue(s, turns, j);
    assert turns[..taken][j] == turns[j];
    assert forall k | 0 <= k < j :: turns[..j][k] == turns[..taken][k];
  }

  /** One more turn: committed before it, committed with it if it was due, or not due. */
  lemma NextOnTime<W>(s: Setup<W>, was: bool, keep: seq<Event>, committed: bool, buffered: seq<Event>, turns: seq<Turn>, k: nat, goesOn: bool)
    requires k < |turns| && OnTime(s, was, keep, turns, k, k)
    requires was ==> committed && buffered == keep
    requires !was && committed ==> Due(s, turns, k) && buffered == EventsBy(s, turns, k + 1)
    requires !committed && goesOn ==> !Due(s, turns, k)
    ensures OnTime(s, committed, buffered, turns, k + 1, if goesOn then k + 1 else k)
  {
    if was {
      StaysOnTime(s, keep, turns, k, k + 1);
    } else if committed {
      assert FirstDue(s, turns, k);
    }
  }

  lemma StaysOnTime<W>(s: Setup<W>, buffered: seq<Event>, turns: seq<Turn>, taken: nat, more: nat)
    requires taken <= more <= |turns| && OnTime(s, true, buffered, turns, taken, taken)
    ensures OnTime(s, true, buffered, turns, more, taken)
    ensures OnTime(s, true, buffered, turns, more, more)
  {
  }

  lemma NextTurn(ticking: bool, turns: seq<Turn>, k: nat)
    requires k < |turns|
    ensures BytesRead(turns[..k + 1]) == BytesRead(turns[..k]) + if turns[k].Read? then turns[k].data else ""
    ensures Ticked(ticking, turns[..k + 1]) == (Ticked(ticking, turns[..k]) || (turns[k].KeepTick? && ticking))
  {
    assert turns[..k + 1] == turns[..k] + [turns[k]];
    assert turns[..k + 1][..k] == turns[..k];
  }

  class Engine<W(!new)> {
    const s: Setup<W>
    const parser: Parser
    const sp: Spool.Spool
    var wireState: W
    var committed: bool
    var headerWritten: bool
    var graceElapsed: bool
    /** The spool was handed to the caller instead of being discarded. */
    var heldRefusal: bool
    var trace: seq<Write>
    var writes: nat
    ghost var buffered: seq<Event>
    ghost var live: seq<Event>
    ghost var atCommit: W
    /** All bytes read, whether the input has ended, and whether it ended without any fault. */
    ghost var fed: Bytes
    ghost var ended: bool
    ghost var clean: bool

    ghost function View(): Ledger<W>
      reads this`committed, this`wireState, this`buffered, this`live, this`atCommit, this`trace
    {
      Ledger(committed, wireState, buffered, live, atCommit, trace)
    }

    ghost predicate Valid()
      reads this`committed, this`buffered, this`trace, this`headerWritten, this`writes, sp
    {
      && sp.Valid()
      && parser.maxEventBytes == s.maxEvent
      && (headerWritten <==> trace != [])
      && (!committed ==> sp.intact && sp.accepted == SseRoundTrip.Raws(buffered))
      && (!committed ==> Tallied())
    }

    /** The spool has counted every byte of the buffer, one write an event. */
    ghost predicate Tallied()
      reads this`buffered, this`writes, sp
    {
      sp.total == |Concat(SseRoundTrip.Raws(buffered))| && writes == |buffered|
    }

    /** The events explain this result if it is a failure. */
    ghost predicate Explained(res: Result)
      reads this`committed, this`wireState, this`buffered, this`live, this`atCommit, this`trace, sp
    {
      res.fail.Some? ==> ByEvents(s, View(), sp.maxResponse, res.fail.value)
    }

    /** The events explain it, or a frame that passes the limit behind all of them. */
    ghost predicate Blamed(res: Result)
      reads this`committed, this`wireState, this`buffered, this`live, this`atCommit, this`trace, parser, sp
    {
      Explained(res) || (parser.failed && Running(s, View()) && res == Result(committed, Some(RESPONSE_TOO_LARGE)))
    }

    /** All the input was read, without a fault and up to the end of a frame, and is a complete response. */
    ghost predicate EofComplete()
      reads this`wireState, this`fed, this`clean
    {
      clean && AtFrameEnd(Feed(s.maxEvent, Fresh(false), fed, true).state) && s.wire.completeOnEof(wireState)
    }

    /** Both judgments on the fields, each as one value. */
    ghost function Judge(res: Result, atEof: bool): Judgment
      reads this`committed, this`wireState, this`buffered, this`live, this`atCommit, this`trace,
        this`headerWritten, this`heldRefusal, this`writes, sp
    {
      Judgment(
        goesOn := Valid() && Running(s, View()) && !heldRefusal,
        isOver := sp.Valid() && Ended(s, View(), res, atEof) && RightVerdict(s, View(), res) && NothingPast(s, View())
          && (heldRefusal ==> HeldWhole(res)) && (Refuses(res.fail) && !committed ==> heldRefusal))
    }

    ghost predicate GoesOn()
      reads this`committed, this`wireState, this`buffered, this`live, this`atCommit, this`trace,
        this`headerWritten, this`heldRefusal, this`writes, sp
    {
      Judge(Result(false, None), false).goesOn
    }

    ghost predicate IsOver(res: Result, atEof: bool)
      reads this`committed, this`wireState, this`buffered, this`live, this`atCommit, this`trace,
        this`headerWritten, this`heldRefusal, this`writes, sp
    {
      Judge(res, atEof).isOver
    }

    /** Every event of the bytes read so far has been looked at, in order, none of it terminal. */
    ghost predicate Between()
      reads this`committed, this`wireState, this`buffered, this`live, this`atCommit, this`trace,
        this`headerWritten, this`heldRefusal, this`writes, this`fed, this`ended, this`clean, parser, sp
    {
      && GoesOn() && !ended && !clean && parser.Valid()
      && Run(s.maxEvent, Fresh(false), fed) == Out(parser.Abs(), buffered + live)
    }

    /** The input ended without a fault, between frames, and every event of it was looked at. */
    ghost predicate AtEof()
      requires parser.Valid()
      reads this, parser
    {
      && ended && clean && AtFrameEnd(parser.Abs())
      && Feed(s.maxEvent, Fresh(false), fed, true) == Out(parser.Abs(), buffered + live)
    }

    constructor (s: Setup<W>, maxResponse: int, maxMem: int)
      ensures Between() && this.s == s && fed == "" && fresh(parser) && fresh(sp)
      ensures sp.maxResponse == maxResponse && !graceElapsed && !committed
    {
      this.s := s;
      parser := new Parser(s.maxEvent);
      sp := new Spool.Spool(maxResponse, maxMem);
      wireState, committed, headerWritten, graceElapsed, heldRefusal, trace, writes := s.start, false, false, false, false, [], 0;
      buffered, live, atCommit, fed, ended := [], [], s.start, "", false;
      clean := false;
      new;
      Begins();
    }

    /** Before the first turn. */
    lemma Begins()
      requires parser.Valid() && parser.Abs() == Fresh(false) && parser.maxEventBytes == s.maxEvent
      requires sp.Valid() && sp.intact && sp.accepted == [] && sp.total == 0 && writes == 0
      requires View() == Ledger(false, s.start, [], [], s.start, []) && !headerWritten && !heldRefusal && fed == "" && !ended && !clean
      ensures Between()
    {
      StartRuns(s);
      EmptyPlus(buffered);
    }

    method WriteHead(isLive: bool)
      modifies this`headerWritten, this`trace
      ensures headerWritten
      ensures trace == if old(headerWritten) then old(trace) else old(trace) + [Header(isLive)]
    {
      if headerWritten {
        return;
      }
      trace, headerWritten := trace + [Header(isLive)], true;
    }

    /** Write the frames of a replay as far as the client takes them. */
    method WriteReplay(r: ROut<W>) returns (fail: Option<Failure>)
      modifies this`trace
      ensures trace == old(trace) + [Frame(Written(s.room, Concat(r.frames)))]
      ensures fail == if Complete(s, r) then None else Some(ReplayFailure(s, r))
    {
      var all := Concat(r.frames);
      trace := trace + [Frame(Written(s.room, all))];
      if s.room.Some? && s.room.value < |all| {
        assert |Written(s.room, all)| != |all|;
        return Some(REPLAY_FAILED);
      }
      match r.verdict {
        case Whole => return None;
        case OverLimit => return Some(RESPONSE_TOO_LARGE);
        case Broken => return Some(REPLAY_FAILED);
      }
    }

    /** Headers and the buffered prefix, then live streaming. */
    method CommitLive() returns (fail: Option<Failure>)
      requires Valid() && Running(s, View()) && !committed
      requires s.gated ==> s.wire.forwardable(wireState)
      modifies this`headerWritten, this`committed, this`trace, this`wireState, this`atCommit
      ensures Valid() && committed && LiveRecord(s, View())
      ensures if fail.None? then Running(s, View()) else RightVerdict(s, View(), Result(true, fail))
      ensures fail.Some? ==> ReplayBroke(s, View(), fail.value)
      ensures HeaderFirst(trace) && atCommit == old(wireState)
    {
      CommitStarts(s, View());
      ghost var r := s.wire.replayPrefix(wireState, sp.Content());
      fail := WriteCommit();
      if fail.Some? {
        BreaksIs(s, r);
      }
    }

    /** The head, the prefix, and the wire where the replay leaves it. */
    method WriteCommit() returns (fail: Option<Failure>)
      requires Valid() && !committed && trace == []
      modifies this`headerWritten, this`committed, this`trace, this`wireState, this`atCommit
      ensures var r := s.wire.replayPrefix(old(wireState), sp.Content());
        && View() == old(View()).(committed := true, atCommit := old(wireState), state := r.state,
                                  trace := [Header(true), Frame(Written(s.room, Concat(r.frames)))])
        && fail == if Complete(s, r) then None else Some(ReplayFailure(s, r))
      ensures headerWritten
    {
      WriteHead(true);
      committed := true;
      atCommit := wireState;
      var r := s.wire.replayPrefix(wireState, sp.Content());
      wireState := r.state;
      fail := WriteReplay(r);
      assert [] + [Header(true)] == [Header(true)];
      assert trace == [Header(true), Frame(Written(s.room, Concat(r.frames)))];
    }

    /** Replay the whole buffer at once. */
    method ReplayCaptured() returns (res: Result)
      requires trace == [] && !headerWritten && !committed && live == []
      requires sp.Valid() && sp.intact && sp.accepted == SseRoundTrip.Raws(buffered)
      requires var b := BufferedRun(s.wire, s.start, buffered); b.fail.None? && b.state == wireState
      modifies this`headerWritten, this`trace
      ensures res.wrote && BufferedRecord(s, View(), res.fail) && HeaderFirst(trace) && headerWritten
    {
      WriteHead(false);
      assert [] + [Header(false)] == [Header(false)];
      var r := s.wire.replayBuffered(wireState, sp.Content());
      var fail := WriteReplay(r);
      return Result(true, fail);
    }

    /** A complete refusal was kept, byte for byte, and nothing of it went downstream. */
    ghost predicate HeldWhole(res: Result)
      reads this`buffered, this`trace, sp
    {
      && !res.wrote && Refuses(res.fail) && trace == []
      && sp.Content() == Concat(SseRoundTrip.Raws(buffered))
      && BufferedRun(s.wire, s.start, buffered).fail == res.fail
    }

    /** What is promised of a capture that its buffered events ended. */
    ghost function Closing(res: Result): Account
      reads this`committed, this`wireState, this`buffered, this`live, this`atCommit, this`trace, sp
    {
      Account(Ended(s, View(), res, false) && RightVerdict(s, View(), res) && Explained(res))
    }

    /** The last event could not be stored. */
    lemma NotStored(w: Spool.Result)
      requires !committed && live == [] && trace == [] && buffered != [] && sp.total == |Concat(SseRoundTrip.Raws(buffered))|
      requires w.TooLarge? <==> sp.total > sp.maxResponse
      requires w.StorageError? ==> !s.faults(|buffered| - 1).NoFault?
      requires var b := BufferedRun(s.wire, s.start, buffered); b.fail.None? || Refuses(b.fail)
      ensures !w.Written? ==> Closing(Result(false, Some(SpoolFailure(w)))).holds
    {
    }

    /** The protocol gave up before anything was written. */
    lemma GivesUp(f: Failure)
      requires !committed && live == [] && trace == [] && BufferedRun(s.wire, s.start, buffered).fail == Some(f)
      ensures Closing(Result(false, Some(f))).holds
    {
    }

    /** Keep an event that the protocol did not reject, and end the capture if it was terminal. */
    method KeepEvent(ev: Event, done: bool, fail: Option<Failure>) returns (res: Option<Result>)
      requires sp.Valid() && sp.intact && sp.accepted + [ev.raw] == SseRoundTrip.Raws(buffered)
      requires Concat(sp.accepted) + ev.raw == Concat(SseRoundTrip.Raws(buffered))
      requires BufferedRun(s.wire, s.start, buffered) == BOut(wireState, done, fail)
      requires fail.Some? ==> Refuses(fail)
      requires trace == [] && !headerWritten && !committed && live == [] && !heldRefusal
      requires sp.total + |ev.raw| == |Concat(SseRoundTrip.Raws(buffered))| && writes + 1 == |buffered|
      modifies this`writes, this`heldRefusal, this`headerWritten, this`trace, sp
      ensures sp.Valid() && (headerWritten <==> trace != [])
      ensures res.None? ==> !done && fail.None? && trace == [] && sp.intact && sp.accepted == SseRoundTrip.Raws(buffered)
      ensures Tallied() && (res.Some? ==> Closing(res.value).holds)
      ensures heldRefusal ==> res.Some? && HeldWhole(res.value)
      ensures res.Some? && Refuses(res.value.fail) ==> heldRefusal
      ensures fail.Some? && sp.accepted == SseRoundTrip.Raws(buffered) ==> heldRefusal
    {
      var w := sp.Write(ev.raw, s.faults(writes));
      writes := writes + 1;
      if w.Written? {
        res := Settle(done, fail);
      } else {
        NotStored(w);
        res := Some(Result(false, Some(SpoolFailure(w))));
      }
    }

    /** What an event that is kept comes to. */
    method Settle(done: bool, fail: Option<Failure>) returns (res: Option<Result>)
      requires sp.Valid() && sp.intact && sp.accepted == SseRoundTrip.Raws(buffered)
      requires BufferedRun(s.wire, s.start, buffered) == BOut(wireState, done, fail)
      requires fail.Some? ==> Refuses(fail)
      requires trace == [] && !headerWritten && !committed && live == [] && !heldRefusal
      modifies this`heldRefusal, this`headerWritten, this`trace
      ensures headerWritten <==> trace != []
      ensures res.None? ==> !done && fail.None? && trace == []
      ensures res.Some? ==> Closing(res.value).holds
      ensures heldRefusal ==> res.Some? && HeldWhole(res.value)
      ensures res.Some? && Refuses(res.value.fail) ==> heldRefusal
      ensures fail.Some? ==> heldRefusal
    {
      if fail.Some? {
        heldRefusal := true;
        GivesUp(fail.value);
        res := Some(Result(false, fail));
      } else if done {
        var r := ReplayCaptured();
        WholeBreaks(r);
        res := Some(r);
      } else {
        res := None;
      }
    }

    /** A replay of the buffer that failed explains itself. */
    lemma WholeBreaks(res: Result)
      requires !committed && res.wrote && BufferedRecord(s, View(), res.fail) && HeaderFirst(trace)
      ensures Explained(res)
      ensures BufferedRun(s.wire, s.start, buffered).done ==> Closing(res).holds
    {
      if res.fail.Some? {
        BreaksIs(s, WholeReplay(s, View()));
      }
    }

    /** One event before any commit: validate it, then keep it. */
    method BufferedEvent(ev: Event) returns (res: Option<Result>)
      requires GoesOn() && !committed
      modifies this`wireState, this`buffered, this`writes, this`heldRefusal, this`headerWritten, this`trace, sp
      ensures buffered + live == old(buffered + live) + [ev]
      ensures res.None? ==> GoesOn()
      ensures res.Some? ==> IsOver(res.value, false) && Explained(res.value)
      ensures Refuses(BufferedRun(s.wire, s.start, buffered).fail) && sp.accepted == SseRoundTrip.Raws(buffered) ==> heldRefusal
    {
      ghost var l := View();
      RunPush(s.wire, s.start, buffered, ev);
      RawsPush(buffered, ev);
      var o := s.wire.buffered(wireState, ev);
      wireState := o.state;
      assert live == [];
      NextNothingPast(s, l, ev);
      buffered := buffered + [ev];
      assert buffered + live == old(buffered + live) + [ev];
      if o.fail.Some? && !Refuses(o.fail) {
        res := Some(Result(false, o.fail));
      } else {
        res := KeepEvent(ev, o.done, o.fail);
      }
    }

    /** Write the frames of a live event. */
    method WriteFrames(frames: seq<Bytes>)
      modifies this`trace
      ensures Extends(s.wire.keepalive, old(trace), trace, frames) && |trace| == |old(trace)| + |frames|
    {
      ExtendsNone(s.wire.keepalive, trace);
      for k := 0 to |frames|
        invariant Extends(s.wire.keepalive, old(trace), trace, frames[..k]) && |trace| == |old(trace)| + k
      {
        ExtendsPush(s.wire.keepalive, old(trace), trace, frames[..k], Frame(frames[k]));
        assert frames[..k + 1] == frames[..k] + [frames[k]];
        trace := trace + [Frame(frames[k])];
      }
      assert frames[..|frames|] == frames;
    }

    method WriteKeepalive()
      modifies this`trace
      ensures trace == old(trace) + [Keepalive(s.wire.keepalive)]
    {
      trace := trace + [Keepalive(s.wire.keepalive)];
    }

    /** Forward what one live event gives, or a keepalive if it gives nothing and nothing is wrong. */
    method Forward(ev: Event) returns (done: bool, fail: Option<Failure>)
      modifies this`trace, this`wireState, this`live
      ensures var o := s.wire.live(old(wireState), ev);
        && wireState == o.state && done == o.done && fail == o.fail
        && Extends(s.wire.keepalive, old(trace), trace, o.frames)
      ensures live == old(live) + [ev] && (fail.None? ==> |old(trace)| < |trace|)
    {
      var o := s.wire.live(wireState, ev);
      wireState := o.state;
      live := live + [ev];
      WriteFrames(o.frames);
      if o.fail.None? && |o.frames| == 0 {
        ExtendsPush(s.wire.keepalive, old(trace), trace, o.frames, Keepalive(s.wire.keepalive));
        EmptyPlus(o.frames);
        WriteKeepalive();
      }
      return o.done, o.fail;
    }

    /** One event after the commit. */
    method LiveEvent(ev: Event) returns (res: Option<Result>)
      requires GoesOn() && committed
      modifies this`trace, this`wireState, this`live
      ensures buffered + live == old(buffered + live) + [ev]
      ensures res.None? ==> GoesOn() && |old(trace)| < |trace|
      ensures res.Some? ==> IsOver(res.value, false) && Explained(res.value)
    {
      ghost var l := View();
      var done, fail := Forward(ev);
      PushLast(buffered, l.live, ev);
      NextNothingPast(s, l, ev);
      LivePush(s, l, ev, trace);
      LiveEnds(s, View());
      assert NothingPast(s, View());
      res := if fail.Some? || done then Some(Result(true, fail)) else None;
    }

    /** A capture may be given up between events: before a commit without a trace, after it as it stands. */
    lemma GiveUp(f: Failure, atEof: bool)
      requires GoesOn() && !IsRefusal(f)
      ensures IsOver(Result(committed, Some(f)), atEof)
    {
      GiveUpBetween(s, View(), f, atEof);
      RunningNothingPast(s, View());
    }

    method OneEvent(ev: Event) returns (res: Option<Result>)
      requires GoesOn()
      modifies this`wireState, this`buffered, this`live, this`writes, this`heldRefusal, this`headerWritten, this`trace, sp
      ensures buffered + live == old(buffered + live) + [ev]
      ensures committed ==> buffered == old(buffered)
      ensures res.None? ==> GoesOn() && (committed ==> |old(trace)| < |trace|)
      ensures res.Some? ==> IsOver(res.value, false) && Explained(res.value)
    {
      if committed {
        res := LiveEvent(ev);
      } else {
        res := BufferedEvent(ev);
      }
    }

    /** The events of one read, up to a terminal or failing one; then the parser's own fault. */
    method Process(events: seq<Event>) returns (res: Option<Result>)
      requires GoesOn() && parser.Valid()
      modifies this`wireState, this`buffered, this`live, this`writes, this`heldRefusal, this`headerWritten, this`trace, sp
      ensures res.None? ==> GoesOn() && !parser.failed
      ensures res.None? ==> buffered + live == old(buffered + live) + events
      ensures res.Some? ==> IsOver(res.value, false) && Blamed(res.value)
      ensures buffered + live <= old(buffered + live) + events
      ensures committed ==> buffered == old(buffered)
      ensures committed && res.None? ==> |old(trace)| + |events| <= |trace|
    {
      ghost var before := buffered + live;
      for k := 0 to |events|
        invariant GoesOn()
        invariant buffered + live == before + events[..k]
        invariant committed ==> buffered == old(buffered) && |old(trace)| + k <= |trace|
      {
        PrefixGrows(before, events, k);
        res := OneEvent(events[k]);
        if res.Some? {
          return;
        }
      }
      assert events[..|events|] == events;
      res := ParserFault();
    }

    method ParserFault() returns (res: Option<Result>)
      requires GoesOn() && parser.Valid()
      ensures res == if parser.failed then Some(Result(committed, Some(RESPONSE_TOO_LARGE))) else None
      ensures res.Some? ==> IsOver(res.value, false) && Blamed(res.value)
    {
      if parser.failed {
        GiveUp(RESPONSE_TOO_LARGE, false);
        return Some(Result(committed, Some(RESPONSE_TOO_LARGE)));
      }
      return None;
    }

    /** What every ended capture is promised. */
    ghost predicate Concluded(res: Result)
      reads this, parser, sp
    {
      && parser.Valid()
      && IsOver(res, AtEof())
      && buffered + live <= Feed(s.maxEvent, Fresh(false), fed, ended).events
      && Feed(s.maxEvent, Fresh(false), fed, ended).state == parser.Abs()
    }

    /** A refusal that ends a capture is kept. */
    lemma RefusalIsHeld(res: Result)
      requires Concluded(res) && Refuses(res.fail) && !committed
      ensures heldRefusal
    {
    }

    /** A held refusal is the whole stream that refused, and the client has seen nothing of it. */
    lemma HeldIsWhole(res: Result)
      requires Concluded(res) && heldRefusal
      ensures !res.wrote && Refuses(res.fail) && trace == []
      ensures sp.Content() == Concat(SseRoundTrip.Raws(buffered + live))
      ensures live == [] && BufferedRun(s.wire, s.start, buffered).fail == res.fail
    {
      assert HeldWhole(res) && Ended(s, View(), res, AtEof());
      assert buffered + live == buffered;
    }

    lemma Conclude(res: Result)
      requires parser.Valid() && IsOver(res, false)
      requires buffered + live <= Feed(s.maxEvent, Fresh(false), fed, ended).events
      requires Feed(s.maxEvent, Fresh(false), fed, ended).state == parser.Abs()
      ensures Concluded(res)
    {
      EndedMore(s, View(), res, false, AtEof());
    }

    /** The parser's own view of a clean end: no record and no line is unfinished. */
    method NoPartialFrame() returns (none: bool)
      requires parser.Valid() && !parser.failed && !parser.cr
      ensures none == AtFrameEnd(parser.Abs())
    {
      none := !parser.cur.has && parser.lineStart == |parser.curRaw|;
    }

    /** A clean end completes the response: replay it, unless it is already downstream. */
    method Deliver() returns (res: Result)
      requires GoesOn() && s.wire.completeOnEof(wireState)
      modifies this`headerWritten, this`trace
      ensures IsOver(res, true) && Explained(res)
    {
      RunningNothingPast(s, View());
      if !committed {
        res := ReplayCaptured();
        WholeBreaks(res);
      } else {
        res := Result(true, None);
      }
    }

    lemma DeliveredConcludes(res: Result)
      requires parser.Valid() && AtEof() && IsOver(res, true)
      ensures Concluded(res)
    {
    }

    /** The input ended, and no event of it was terminal. */
    method EndOfInput(err: ReadErr, ctx: Context) returns (res: Result)
      requires GoesOn() && parser.Valid() && !parser.failed && !parser.cr
      requires ended && clean == (err.CleanEof? && ctx.Alive?)
      requires Feed(s.maxEvent, Fresh(false), fed, true) == Out(parser.Abs(), buffered + live)
      modifies this`headerWritten, this`trace
      ensures Concluded(res)
      ensures !clean ==> res == Result(committed, Some(ReadFailure(err, ctx)))
      ensures Explained(res) || (Running(s, View()) && res == Result(committed, Some(ReadFailure(err, ctx))) && !EofComplete())
    {
      var none := NoPartialFrame();
      if err.CleanEof? && ctx.Alive? && none && s.wire.completeOnEof(wireState) {
        assert AtEof();
        res := Deliver();
        DeliveredConcludes(res);
      } else {
        GiveUpConcludes(ReadFailure(err, ctx));
        res := Result(committed, Some(ReadFailure(err, ctx)));
      }
    }

    lemma GiveUpConcludes(f: Failure)
      requires GoesOn() && parser.Valid() && !IsRefusal(f)
      requires buffered + live <= Feed(s.maxEvent, Fresh(false), fed, ended).events
      requires Feed(s.maxEvent, Fresh(false), fed, ended).state == parser.Abs()
      ensures Concluded(Result(committed, Some(f)))
    {
      GiveUp(f, AtEof());
    }

    /** Commit between events; only a failing replay ends the capture. */
    method CommitEarly() returns (res: Option<Result>)
      requires Between() && !committed
      requires s.gated ==> s.wire.forwardable(wireState)
      modifies this`headerWritten, this`committed, this`trace, this`wireState, this`atCommit
      ensures committed && atCommit == old(wireState)
      ensures res.None? ==> Between()
      ensures res.Some? ==> Concluded(res.value) && Explained(res.value)
    {
      var fail := CommitBetween();
      if fail.Some? {
        res := Some(Result(true, fail));
        Conclude(res.value);
      } else {
        res := None;
      }
    }

    /** The commit, in terms of both judgments. */
    method CommitBetween() returns (fail: Option<Failure>)
      requires GoesOn() && !committed
      requires s.gated ==> s.wire.forwardable(wireState)
      modifies this`headerWritten, this`committed, this`trace, this`wireState, this`atCommit
      ensures committed && atCommit == old(wireState)
      ensures if fail.None? then GoesOn() else IsOver(Result(true, fail), false) && Explained(Result(true, fail))
    {
      RunningNothingPast(s, View());
      fail := CommitLive();
    }

    /** More bytes, from where the parser stands. */
    lemma FeedOn(data: Bytes, eof: bool)
      requires Between()
      ensures Feed(s.maxEvent, Fresh(false), fed + data, eof) == After(buffered + live, Feed(s.maxEvent, parser.Abs(), data, eof))
    {
      FeedSplit(s.maxEvent, Fresh(false), fed, data, eof);
    }

    /** Feed one read to the parser. */
    method Parse(data: Bytes, eof: bool) returns (events: seq<Event>)
      requires Between()
      modifies parser
      ensures GoesOn() && parser.Valid() && (eof ==> !parser.cr || parser.failed)
      ensures Feed(s.maxEvent, Fresh(false), fed + data, eof) == Out(parser.Abs(), buffered + live + events)
    {
      FeedOn(data, eof);
      events := parser.FeedChunk(data, eof);
    }

    method Note(data: Bytes, err: ReadErr, ctx: Context)
      requires GoesOn()
      modifies this`fed, this`ended, this`clean
      ensures fed == old(fed) + data && ended == !err.NoErr? && clean == (err.CleanEof? && ctx.Alive?) && GoesOn()
    {
      fed, ended, clean := fed + data, !err.NoErr?, err.CleanEof? && ctx.Alive?;
    }

    /** One read: its bytes, and whether and how the input ended with it. */
    method Absorb(data: Bytes, err: ReadErr, ctx: Context) returns (events: seq<Event>)
      requires Between()
      modifies parser, this`fed, this`ended, this`clean
      ensures fed == old(fed) + data && ended == !err.NoErr? && clean == (err.CleanEof? && ctx.Alive?)
      ensures GoesOn() && parser.Valid() && (ended ==> !parser.cr || parser.failed)
      ensures Feed(s.maxEvent, Fresh(false), fed, ended) == Out(parser.Abs(), buffered + live + events)
    {
      events := Parse(data, !err.NoErr?);
      Note(data, err, ctx);
    }

    /** Look at what the last read gave. */
    method LookAt(events: seq<Event>) returns (res: Option<Result>)
      requires GoesOn() && parser.Valid()
      requires Feed(s.maxEvent, Fresh(false), fed, ended) == Out(parser.Abs(), buffered + live + events)
      modifies this`wireState, this`buffered, this`live, this`writes, this`heldRefusal, this`headerWritten, this`trace, sp
      ensures res.None? ==> GoesOn() && !parser.failed
      ensures res.None? ==> Feed(s.maxEvent, Fresh(false), fed, ended) == Out(parser.Abs(), buffered + live)
      ensures res.Some? ==> Concluded(res.value) && Blamed(res.value)
      ensures committed ==> buffered == old(buffered)
    {
      res := Process(events);
      if res.Some? {
        Conclude(res.value);
      }
    }

    /** A turn commits a capture, as it stands, if and only if the capture is due after it; one that ends
        the capture need not. */
    ghost predicate Punctual(was: bool, turn: Turn, ticked: bool, goesOn: bool)
      reads this`committed, this`wireState, this`buffered, this`live, this`atCommit, this`fed
    {
      && (was ==> committed)
      && (!was && committed ==>
            DueAt(s, atCommit, turn, ticked) && live == [] && buffered == Run(s.maxEvent, Fresh(false), fed).events)
      && (!committed && goesOn ==> !DueAt(s, wireState, turn, ticked))
    }

    /** Every failure has its cause: the events and what became of them, a frame over the limit, or a turn
        that cut off a stream in which nothing was terminal. */
    ghost predicate Accounted(res: Result, turn: Turn)
      reads this`committed, this`wireState, this`buffered, this`live, this`atCommit, this`trace, this`fed, this`clean, parser, sp
    {
      || Blamed(res)
      || (Running(s, View()) && res.wrote == committed && res.fail.Some? && CutOff(turn, EofComplete(), res.fail.value))
    }

    /** What one turn leaves behind. */
    ghost function TurnOver(turn: Turn, res: Option<Result>, was: bool, ticked: bool): Account
      reads this, parser, sp
    {
      Account(
        && (if res.None? then Between() && !turn.IdleTick? && !turn.ContextDone? else Concluded(res.value) && Accounted(res.value, turn))
        && Punctual(was, turn, ticked, res.None?))
    }

    /** The input ended in this turn, and no event of it was terminal. */
    method AfterEnd(turn: Turn) returns (res: Result)
      requires GoesOn() && parser.Valid() && !parser.failed && !parser.cr && InputEnd(turn)
      requires ended && clean == CleanEnd(turn)
      requires Feed(s.maxEvent, Fresh(false), fed, true) == Out(parser.Abs(), buffered + live)
      modifies this`headerWritten, this`trace
      ensures TurnOver(turn, Some(res), committed, graceElapsed).holds
    {
      res := EndOfInput(turn.err, turn.ctx);
    }

    /** The input goes on: a capture that is due is committed. */
    method AfterMore(turn: Turn) returns (res: Option<Result>)
      requires Between() && turn.Read? && turn.err.NoErr?
      modifies this`headerWritten, this`committed, this`trace, this`wireState, this`atCommit
      ensures TurnOver(turn, res, old(committed), graceElapsed).holds
    {
      res := None;
      if !committed && s.wire.forwardable(wireState) && (s.earlyCommit || (s.gated && graceElapsed)) {
        res := CommitEarly();
      }
    }

    /** Every event of the read was looked at and none ended the capture: the end of input may, or an
        early commit. */
    method AfterRead(turn: Turn) returns (res: Option<Result>)
      requires GoesOn() && parser.Valid() && !parser.failed && (ended ==> !parser.cr) && turn.Read?
      requires ended == InputEnd(turn) && clean == CleanEnd(turn)
      requires Feed(s.maxEvent, Fresh(false), fed, ended) == Out(parser.Abs(), buffered + live)
      modifies this`headerWritten, this`committed, this`trace, this`wireState, this`atCommit
      ensures TurnOver(turn, res, old(committed), graceElapsed).holds
    {
      if InputEnd(turn) {
        var r := AfterEnd(turn);
        res := Some(r);
      } else {
        res := AfterMore(turn);
      }
    }

    /** An event, or a frame over the limit, ended the capture in this turn. */
    lemma EndsTurn(turn: Turn, res: Result)
      requires Concluded(res) && Blamed(res)
      ensures TurnOver(turn, Some(res), committed, graceElapsed).holds
    {
    }

    /** What one read gave, and then what its end means. */
    method LookAtAll(events: seq<Event>, turn: Turn) returns (res: Option<Result>)
      requires GoesOn() && parser.Valid() && (ended ==> !parser.cr || parser.failed) && turn.Read?
      requires ended == InputEnd(turn) && clean == CleanEnd(turn)
      requires Feed(s.maxEvent, Fresh(false), fed, ended) == Out(parser.Abs(), buffered + live + events)
      modifies this`wireState, this`buffered, this`live, this`writes, this`heldRefusal, this`headerWritten, this`trace,
        this`committed, this`atCommit, sp
      ensures TurnOver(turn, res, old(committed), graceElapsed).holds
      ensures old(committed) ==> buffered == old(buffered)
    {
      res := LookAt(events);
      if res.None? {
        res := AfterRead(turn);
      } else {
        EndsTurn(turn, res.value);
      }
    }

    method OnRead(turn: Turn) returns (res: Option<Result>)
      requires Between() && turn.Read?
      modifies this, parser, sp
      ensures fed == old(fed) + turn.data && ended == InputEnd(turn) && clean == CleanEnd(turn)
      ensures TurnOver(turn, res, old(committed), old(graceElapsed)).holds && graceElapsed == old(graceElapsed)
      ensures old(committed) ==> buffered == old(buffered)
    {
      var events := Absorb(turn.data, turn.err, turn.ctx);
      res := LookAtAll(events, turn);
    }

    /** The keepalive timer: commit if the caller allows it, and keep the client's own timer quiet. */
    method OnKeepTick() returns (res: Option<Result>)
      requires Between()
      modifies this`graceElapsed, this`headerWritten, this`committed, this`trace, this`wireState, this`atCommit
      ensures res.None? ==> Between()
      ensures res.Some? ==> Concluded(res.value) && Explained(res.value)
      ensures graceElapsed == (old(graceElapsed) || s.ticking)
      ensures Punctual(old(committed), KeepTick, old(graceElapsed), res.None?)
      ensures s.ticking && committed && res.None? ==> Beating()
    {
      res := None;
      if s.ticking {
        graceElapsed := true;
        res := Tick();
      }
    }

    /** A heartbeat is the last thing that was written. */
    ghost predicate Beating()
      reads this`trace
    {
      trace != [] && trace[|trace| - 1] == Keepalive(s.wire.keepalive)
    }

    method Tick() returns (res: Option<Result>)
      requires Between() && s.ticking
      modifies this`headerWritten, this`committed, this`trace, this`wireState, this`atCommit
      ensures res.None? ==> Between()
      ensures res.Some? ==> Concluded(res.value) && Explained(res.value)
      ensures Punctual(old(committed), KeepTick, graceElapsed, res.None?)
      ensures committed && res.None? ==> Beating()
    {
      res := None;
      if committed {
        TickKeepalive();
      } else if !s.gated || s.wire.forwardable(wireState) {
        res := CommitOnTick();
      }
    }

    method CommitOnTick() returns (res: Option<Result>)
      requires Between() && !committed
      requires s.gated ==> s.wire.forwardable(wireState)
      modifies this`headerWritten, this`committed, this`trace, this`wireState, this`atCommit
      ensures committed && atCommit == old(wireState)
      ensures res.None? ==> Between() && Beating()
      ensures res.Some? ==> Concluded(res.value) && Explained(res.value)
    {
      res := CommitEarly();
      if res.None? {
        TickKeepalive();
      }
    }

    method TickKeepalive()
      requires Between() && committed
      modifies this`trace
      ensures Between() && Beating()
    {
      ghost var l := View();
      ExtendsNone(s.wire.keepalive, trace);
      ExtendsPush(s.wire.keepalive, trace, trace, [], Keepalive(s.wire.keepalive));
      WriteKeepalive();
      KeepaliveKeeps(s, l, trace);
    }

    /** A tick reads nothing and ends nothing. */
    method OnTickTurn() returns (res: Option<Result>)
      requires Between()
      modifies this`graceElapsed, this`headerWritten, this`committed, this`trace, this`wireState, this`atCommit
      ensures !ended && !clean
      ensures TurnOver(KeepTick, res, old(committed), old(graceElapsed)).holds
      ensures graceElapsed == (old(graceElapsed) || s.ticking)
      ensures s.ticking && committed && res.None? ==> Beating()
    {
      res := OnKeepTick();
    }

    /** One turn of the loop; None means that the capture goes on. */
    method Take(turn: Turn) returns (res: Option<Result>)
      requires Between()
      modifies this, parser, sp
      ensures fed == old(fed) + if turn.Read? then turn.data else ""
      ensures ended == InputEnd(turn) && clean == CleanEnd(turn)
      ensures TurnOver(turn, res, old(committed), old(graceElapsed)).holds && (old(committed) ==> buffered == old(buffered))
      ensures graceElapsed == (old(graceElapsed) || (turn.KeepTick? && s.ticking))
      ensures turn.KeepTick? && s.ticking && committed && res.None? ==> Beating()
      ensures turn.IdleTick? ==> res == Some(Result(old(committed), Some(UPSTREAM_IDLE)))
      ensures turn.ContextDone? ==>
        res == Some(Result(old(committed), Some(if turn.ctx.DeadlineExceeded? then DEADLINE else CLIENT_GONE)))
    {
      EmptyPlus(fed);
      match turn {
        case Read(_, _, _) =>
          res := OnRead(turn);
        case KeepTick =>
          res := OnTickTurn();
        case IdleTick =>
          res := Stop(turn, UPSTREAM_IDLE);
        case ContextDone(ctx) =>
          res := Stop(turn, if ctx.DeadlineExceeded? then DEADLINE else CLIENT_GONE);
      }
    }

    method Stop(turn: Turn, f: Failure) returns (res: Option<Result>)
      requires Between() && !turn.Read? && CutOff(turn, false, f) && !IsRefusal(f)
      ensures res == Some(Result(committed, Some(f))) && TurnOver(turn, res, committed, graceElapsed).holds
    {
      GiveUpConcludes(f);
      return Some(Result(committed, Some(f)));
    }

    /** A commit happens in the state that the buffer leads to. */
    lemma CommitState(res: Option<Result>)
      requires committed && if res.None? then Between() else Concluded(res.value)
      ensures BufferedRun(s.wire, s.start, buffered).state == atCommit
    {
    }

    /** One turn more, and the commit is still on time. */
    lemma KeepsTime(was: bool, keep: seq<Event>, turns: seq<Turn>, k: nat, goesOn: bool)
      requires k < |turns| && fed == BytesRead(turns[..k + 1])
      requires OnTime(s, was, keep, turns, k, k) && (was ==> buffered == keep)
      requires Punctual(was, turns[k], Ticked(s.ticking, turns[..k]), goesOn)
      requires !was && committed ==> BufferedRun(s.wire, s.start, buffered).state == atCommit
      requires goesOn ==> Between()
      ensures OnTime(s, committed, buffered, turns, k + 1, if goesOn then k + 1 else k)
    {
      if !committed && goesOn {
        assert buffered + live == buffered;
      }
      NextOnTime(s, was, keep, committed, buffered, turns, k, goesOn);
    }

    /** After k turns the capture goes on, committed if it was due. */
    ghost predicate OnSchedule(turns: seq<Turn>, k: nat)
      requires k <= |turns|
      reads this`committed, this`buffered, this`graceElapsed
    {
      graceElapsed == Ticked(s.ticking, turns[..k]) && OnTime(s, committed, buffered, turns, k, k)
    }

    /** After k turns the capture goes on, on schedule, and with a heartbeat behind the last one if it was a tick. */
    ghost function Rolling(turns: seq<Turn>, k: nat): Account
      requires k <= |turns|
      reads this, parser, sp
    {
      Account(
        && Between() && fed == BytesRead(turns[..k]) && OnSchedule(turns, k)
        && (k > 0 && turns[k - 1].KeepTick? && s.ticking && committed ==> Beating()))
    }

    /** The turn at k has ended the capture. */
    ghost function Over(turns: seq<Turn>, k: nat, res: Result): Account
      requires k < |turns|
      reads this, parser, sp
    {
      Account(
        && Concluded(res) && Accounted(res, turns[k]) && fed == BytesRead(turns[..k + 1])
        && ended == InputEnd(turns[k]) && clean == CleanEnd(turns[k])
        && OnTime(s, committed, buffered, turns, k + 1, k))
    }

    ghost predicate Progress(turns: seq<Turn>, k: nat, res: Option<Result>)
      requires k < |turns|
      reads this, parser, sp
    {
      if res.None? then Rolling(turns, k + 1).holds else Over(turns, k, res.value).holds
    }

    lemma Progresses(was: bool, keep: seq<Event>, turns: seq<Turn>, k: nat, res: Option<Result>)
      requires k < |turns| && fed == BytesRead(turns[..k + 1]) && graceElapsed == Ticked(s.ticking, turns[..k + 1])
      requires ended == InputEnd(turns[k]) && clean == CleanEnd(turns[k])
      requires OnTime(s, was, keep, turns, k, k) && (was ==> buffered == keep)
      requires TurnOver(turns[k], res, was, Ticked(s.ticking, turns[..k])).holds
      requires turns[k].KeepTick? && s.ticking && committed && res.None? ==> Beating()
      ensures Progress(turns, k, res)
    {
      Unpack(turns[k], res, was, Ticked(s.ticking, turns[..k]));
      if committed {
        CommitState(res);
      }
      KeepsTime(was, keep, turns, k, res.None?);
      if res.None? {
        Rolls(turns, k + 1);
      } else {
        Ends(turns, k, res.value);
      }
    }

    lemma Unpack(turn: Turn, res: Option<Result>, was: bool, ticked: bool)
      requires TurnOver(turn, res, was, ticked).holds
      ensures res.None? ==> Between()
      ensures res.Some? ==> Concluded(res.value) && Accounted(res.value, turn)
      ensures Punctual(was, turn, ticked, res.None?)
    {
    }

    lemma Rolls(turns: seq<Turn>, k: nat)
      requires k <= |turns| && Between() && fed == BytesRead(turns[..k]) && OnSchedule(turns, k)
      requires k > 0 && turns[k - 1].KeepTick? && s.ticking && committed ==> Beating()
      ensures Rolling(turns, k).holds
    {
    }

    lemma Ends(turns: seq<Turn>, k: nat, res: Result)
      requires k < |turns| && Concluded(res) && Accounted(res, turns[k]) && fed == BytesRead(turns[..k + 1])
      requires ended == InputEnd(turns[k]) && clean == CleanEnd(turns[k]) && OnTime(s, committed, buffered, turns, k + 1, k)
      ensures Over(turns, k, res).holds
    {
    }

    /** The next turn, on schedule. */
    method TakeNext(turns: seq<Turn>, k: nat) returns (res: Option<Result>)
      requires k < |turns| && Rolling(turns, k).holds
      modifies this, parser, sp
      ensures Progress(turns, k, res)
    {
      ghost var was, keep := committed, buffered;
      NextTurn(s.ticking, turns, k);
      res := Take(turns[k]);
      Progresses(was, keep, turns, k, res);
    }

    /** A whole run: any turns in any order, of which the first `taken` are taken. None means that the
        capture still waits for the next one. */
    method Capture(turns: seq<Turn>) returns (res: Option<Result>, ghost taken: nat)
      requires Between() && fed == "" && !committed && !graceElapsed
      modifies this, parser, sp
      ensures taken <= |turns| && fed == BytesRead(turns[..taken])
      ensures res.None? ==> Between() && taken == |turns|
      ensures res.Some? ==> Concluded(res.value) && taken > 0
      ensures res.Some? ==> ended == InputEnd(turns[taken - 1]) && clean == CleanEnd(turns[taken - 1])
      ensures res.Some? ==> Accounted(res.value, turns[taken - 1])
      ensures OnTime(s, committed, buffered, turns, taken, if res.Some? then taken - 1 else taken)
      ensures res.None? && taken > 0 && turns[taken - 1].KeepTick? && s.ticking && committed ==> Beating()
    {
      for k := 0 to |turns|
        invariant Rolling(turns, k).holds
      {
        res := TakeNext(turns, k);
        taken := k + 1;
        if res.Some? {
          return;
        }
      }
      return None, |turns|;
    }
  }
}
