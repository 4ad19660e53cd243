/**
 One request as its client sees it (main.go, handle over captureSSECore): the captures of its attempts,
 put end to end.
 */
module RequestRuns {
  import opened Common
  import RetryLoop
  import RetryReasons
  import opened SseParser
  import Capture
  import CaptureEngine
  import CaptureRuns
  import AnthropicWire
  import AnthropicVerdicts
  import GeminiCapture
  import GeminiWire
  import ResponsesCapture
  import opened Failures

  /** What one capture leaves behind: its result, whether it kept a refusal, and what the client got. */
  datatype Captured = Captured(result: Capture.Result, refusal: bool, sent: Bytes)

  /** What every capture run promises about them. */
  predicate Kept(x: Captured) {
    && (!x.result.wrote ==> x.sent == "" && x.result.fail.Some?)
    && (x.refusal ==> !x.result.wrote)
  }

  /** One capture, on any protocol and schedule; None if its turns do not end it. */
  method CaptureOnce<W(!new)>(s: Capture.Setup<W>, limits: CaptureRuns.Limits, turns: seq<CaptureEngine.Turn>)
    returns (x: Option<Captured>, ghost events: seq<Event>)
    requires s.maxEvent == CaptureRuns.MaxEvent(limits) && Capture.DeliversOwn(s.wire)
    ensures x.Some? ==> Kept(x.value) && CaptureRuns.TellsOwn(x.value.result, events, x.value.sent)
  {
    var res, sent, live, refusal;
    ghost var l, taken;
    res, sent, live, refusal, l, taken := CaptureRuns.Run(s, limits, turns);
    events := l.buffered + l.live;
    x := if res.None? then None else Some(Captured(res.value, refusal.Some?, sent));
    if res.Some? {
      CaptureRuns.OwnOfRun(s, limits, l, res.value, turns, taken, CaptureRuns.EndsCleanly(limits, turns, taken, events));
    }
  }

  /** The three protocols meet the condition. */
  lemma ProtocolsDeliverOwn(a: AnthropicWire.Env, g: GeminiWire.Env, r: ResponsesCapture.Env)
    ensures Capture.DeliversOwn(AnthropicWire.Protocol(a))
    ensures Capture.DeliversOwn(GeminiCapture.Protocol(g))
    ensures Capture.DeliversOwn(ResponsesCapture.Protocol(r))
  {
    AnthropicVerdicts.OwnErrors(a);
    GeminiCapture.OwnErrors(g);
    ResponsesCapture.OwnErrors(r);
  }

  /** How the attempt loop takes a capture. */
  function OutcomeOf(x: Captured): RetryLoop.Outcome {
    if x.refusal then RetryLoop.Complete(true)
    else match x.result.fail
      case None => RetryLoop.Complete(false)
      case Some(f) => RetryLoop.Failed(x.result.wrote, f)
  }

  /** An attempt that commits nothing sends the client nothing. */
  predicate Silent(cfg: RetryLoop.Config, o: RetryLoop.Outcome, sent: Bytes) {
    !RetryLoop.Commits(cfg, o) ==> sent == ""
  }

  /** So it is with every capture, if refusals are kept only for a request that has a fallback. */
  lemma CapturesAreSilent(cfg: RetryLoop.Config, x: Captured)
    requires Kept(x) && (x.refusal ==> RetryLoop.Intercepts(cfg))
    ensures Silent(cfg, OutcomeOf(x), x.sent)
    ensures RetryLoop.Commits(cfg, OutcomeOf(x)) <==> x.result.wrote
  {
  }

  /** What the first n attempts sent, in order. */
  function Heard(sent: nat -> Bytes, n: nat): Bytes {
    if n == 0 then "" else Heard(sent, n - 1) + sent(n - 1)
  }

  lemma {:induction false} NothingHeard(sent: nat -> Bytes, n: nat)
    requires forall k: nat | k < n :: sent(k) == ""
    ensures Heard(sent, n) == ""
  {
    if n > 0 {
      NothingHeard(sent, n - 1);
    }
  }

  /** However many models are tried, the client receives the bytes of one attempt at most, the last one; if
      that committed nothing, it receives the bytes of none, and the held answer is that of an attempt
      that completely refused. */
  lemma OneVoice(h: RetryLoop.Handler, sent: nat -> Bytes, ended: Option<Failure>, present: bool, res: RetryLoop.Result)
    requires h.Concluded(ended, present, res)
    requires forall k: nat | k < |h.sent| :: Silent(h.cfg, h.attempts(k).outcome, sent(k))
    ensures |h.sent| > 0 && Heard(sent, |h.sent|) == sent(|h.sent| - 1)
    ensures res.HeldAnswer? || res.Surfaced? ==> Heard(sent, |h.sent|) == ""
    ensures res.HeldAnswer? ==> res.attempt < |h.sent| && h.attempts(res.attempt).outcome == RetryLoop.Complete(true)
  {
    var n := |h.sent| - 1;
    forall k: nat | k < n ensures sent(k) == "" {
      assert !RetryLoop.Commits(h.cfg, h.attempts(k).outcome);
    }
    NothingHeard(sent, n);
    EmptyPlus(sent(n));
  }

  /** A response that ends cleanly belongs to a capture that succeeded, or to one whose last frame is the
      upstream's own final error; any other response that was begun is cut off. */
  lemma CleanEnd(h: RetryLoop.Handler, ended: Option<Failure>, present: bool, res: RetryLoop.Result, x: Captured, events: seq<Event>)
    requires h.Concluded(ended, present, res) && h.attempts(|h.sent| - 1).outcome == OutcomeOf(x)
    requires Kept(x) && CaptureRuns.TellsOwn(x.result, events, x.sent) && (x.refusal ==> RetryLoop.Intercepts(h.cfg))
    ensures res.Delivered? <==> !x.refusal && x.result == Capture.Result(true, None)
    ensures res.DeliveredInStream? ==>
      x.result == Capture.Result(true, Some(res.fail)) && events != [] && Capture.EndsIn(x.sent, events[|events| - 1].raw)
    ensures res.Aborted? <==> x.result.wrote && x.result.fail.Some? && !x.result.fail.value.delivered
  {
    RetryReasons.HowItEnds(h, ended, present, res);
  }
}
