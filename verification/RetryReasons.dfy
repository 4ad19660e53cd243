/**
 Why the attempt loop does what it does, in plain terms (main.go, handle): what must have come before an
 attempt of each kind, what is used up when a request ends without an answer, and how it ends with one.
 */
module RetryReasons {
  import opened Common
  import opened Failures
  import opened RetryLoop

  /** A Claude request that has some other model to fall back to. */
  predicate HasFallback(cfg: Config) {
    cfg.claudeMessages && exists m :: m in cfg.fallbacks && m != cfg.firstModel
  }

  lemma InterceptsIff(cfg: Config)
    ensures Intercepts(cfg) <==> HasFallback(cfg)
  {
    var j := NextIndex(cfg, 0);
    if j < |cfg.fallbacks| {
      assert cfg.fallbacks[j] in cfg.fallbacks;
    }
  }

  /** For such a request the answer is a refusal: a complete one, or a safeguard error that comes before any
      byte of a response. */
  predicate Declines(cfg: Config, o: Outcome) {
    HasFallback(cfg) &&
    match o
    case Complete(refusal) => refusal
    case HttpError(f, _) => cfg.rules.safeguard(f)
    case Failed(wrote, f) => !wrote && cfg.rules.safeguard(f)
    case _ => false
  }

  /** Bytes of a response went downstream. */
  predicate Answers(cfg: Config, o: Outcome) {
    o.NonSse? || (o.Complete? && !Declines(cfg, o)) || (o.Failed? && o.wrote)
  }

  lemma OutcomesAre(cfg: Config, o: Outcome)
    ensures Refuses(cfg, o) <==> Declines(cfg, o)
    ensures Commits(cfg, o) <==> Answers(cfg, o)
  {
    InterceptsIff(cfg);
  }

  /** Some attempt before n refused. */
  ghost predicate SomeRefused(cfg: Config, attempts: nat -> Attempt, n: nat) {
    exists j: nat :: j < n && Declines(cfg, attempts(j).outcome)
  }

  /** A hidden retry: the last failure may clear, nothing has refused, and retries, budget and time are left. */
  ghost predicate LocalReason(cfg: Config, attempts: nat -> Attempt, sent: seq<Sent>, k: nat, f: Failure)
    requires 0 < k <= |sent|
  {
    var a := attempts(k - 1);
    && f.transient && cfg.budgetLeft && a.canWait && a.sleeps
    && Repeats(sent[..k]) < cfg.localRetries && !SomeRefused(cfg, attempts, k)
  }

  /** The fast retry: a quick failure without an answer, or, before any refusal, an error status that names no
      wait of its own; where hidden retries are off, or a chain has begun; and none was used before. */
  ghost predicate FastReason(cfg: Config, attempts: nat -> Attempt, sent: seq<Sent>, k: nat, f: Failure)
    requires 0 < k <= |sent|
  {
    var a := attempts(k - 1);
    && f.fastRetry && cfg.budgetLeft && a.quick && a.canWaitFast && a.sleeps
    && (forall j | 0 <= j < k :: !sent[j].reason.Fast?)
    && (cfg.localRetries == 0 || (a.outcome.TransportError? && SomeRefused(cfg, attempts, k - 1)))
    && (a.outcome.TransportError? || (a.outcome.HttpError? && f.retryAfter == 0 && !SomeRefused(cfg, attempts, k)))
  }

  /** A candidate: some attempt refused, and the last one did too, or failed in a way that the next model may
      not; time and the request body allow it, and the list has another model. */
  ghost predicate SwapReason(cfg: Config, attempts: nat -> Attempt, at: seq<int>, k: nat, f: Failure)
    requires 0 < k <= |at|
  {
    var a := attempts(k - 1);
    && SomeRefused(cfg, attempts, k) && a.swapOpen && a.swapOk
    && (a.outcome.Complete? || cfg.rules.safeguard(f) || cfg.rules.action(f).Next?)
    && exists p :: (at[k - 1] < p < |cfg.fallbacks| && 0 <= p && cfg.fallbacks[p] != cfg.firstModel)
  }

  /** The failure of the attempt before k; an error status is read by other rules once some attempt before it
      has refused. */
  ghost function FailureBefore(cfg: Config, attempts: nat -> Attempt, k: nat): Failure
    requires k > 0 && !Answers(cfg, attempts(k - 1).outcome)
  {
    match attempts(k - 1).outcome
    case TransportError(f) => f
    case NonSseUnread(f) => f
    case Failed(_, f) => f
    case HttpError(f, readOk) => if SomeRefused(cfg, attempts, k - 1) then cfg.rules.inFallback(f, readOk) else f
    case _ => cfg.rules.refused
  }

  lemma FailureIs(cfg: Config, attempts: nat -> Attempt, armed: Option<nat>, n: nat, k: nat)
    requires FirstRefusal(cfg, attempts, armed, n) && 0 < k <= n && !Commits(cfg, attempts(k - 1).outcome)
    ensures !Answers(cfg, attempts(k - 1).outcome)
    ensures FailureBefore(cfg, attempts, k) == Verdict(cfg, attempts(k - 1).outcome, armed.Some? && armed.value < k - 1)
  {
    OutcomesAre(cfg, attempts(k - 1).outcome);
    RefusedBefore(cfg, attempts, armed, n, k - 1);
  }

  lemma RefusedBefore(cfg: Config, attempts: nat -> Attempt, armed: Option<nat>, n: nat, k: nat)
    requires FirstRefusal(cfg, attempts, armed, n) && k <= n
    ensures SomeRefused(cfg, attempts, k) <==> armed.Some? && armed.value < k
  {
    forall j: nat | j < n ensures Refuses(cfg, attempts(j).outcome) <==> Declines(cfg, attempts(j).outcome) {
      OutcomesAre(cfg, attempts(j).outcome);
    }
  }

  lemma AnotherModel(cfg: Config, place: int)
    requires UsedUpTo(place) <= |cfg.fallbacks| && NextIndex(cfg, UsedUpTo(place)) < |cfg.fallbacks|
    ensures exists p :: place < p < |cfg.fallbacks| && 0 <= p && cfg.fallbacks[p] != cfg.firstModel
  {
    var p := NextIndex(cfg, UsedUpTo(place));
    assert place < p && cfg.fallbacks[p] != cfg.firstModel;
  }

  /** What one decision says of the failure that it answers. */
  predicate Decided(cfg: Config, a: Attempt, f: Failure, fallback: bool, used: nat, fastUsed: bool, from: nat, reason: Reason)
    requires from <= |cfg.fallbacks|
  {
    match reason
    case First => false
    case Local =>
      !TurnsDown(cfg, a.outcome, f) && !fallback && f.transient && cfg.budgetLeft && a.canWait && a.sleeps && used < cfg.localRetries
    case Fast =>
      && !TurnsDown(cfg, a.outcome, f) && !fastUsed
      && f.fastRetry && cfg.budgetLeft && a.quick && a.canWaitFast && a.sleeps
      && (cfg.localRetries == 0 || (a.outcome.TransportError? && fallback))
      && (a.outcome.TransportError? || (a.outcome.HttpError? && f.retryAfter == 0 && !fallback))
    case Swap =>
      && (fallback || TurnsDown(cfg, a.outcome, f)) && a.swapOpen && a.swapOk
      && (a.outcome.Complete? || cfg.rules.safeguard(f) || cfg.rules.action(f).Next?)
      && NextIndex(cfg, from) < |cfg.fallbacks|
  }

  lemma ChoiceDecides(cfg: Config, a: Attempt, f: Failure, fallback: bool, used: nat, fastUsed: bool, from: nat, reason: Reason)
    requires from <= |cfg.fallbacks| && Choice(cfg, a, f, fallback, used, fastUsed, from) == Some(reason)
    ensures Decided(cfg, a, f, fallback, used, fastUsed, from, reason)
  {
  }

  /** Only a refusal turns down an attempt before which nothing refused. */
  lemma TurnedDownRefused(cfg: Config, o: Outcome)
    requires !Commits(cfg, o)
    ensures TurnsDown(cfg, o, Verdict(cfg, o, false)) <==> Refuses(cfg, o)
  {
  }

  /** What the attempts before k say of refusals. */
  lemma RefusalsKnown(cfg: Config, attempts: nat -> Attempt, armed: Option<nat>, n: nat, k: nat, f: Failure)
    requires FirstRefusal(cfg, attempts, armed, n) && 0 < k <= n && !Commits(cfg, attempts(k - 1).outcome)
    requires f == Verdict(cfg, attempts(k - 1).outcome, armed.Some? && armed.value < k - 1)
    ensures armed.Some? && armed.value < k - 1 <==> SomeRefused(cfg, attempts, k - 1)
    ensures SomeRefused(cfg, attempts, k) <==> SomeRefused(cfg, attempts, k - 1) || Refuses(cfg, attempts(k - 1).outcome)
    ensures !SomeRefused(cfg, attempts, k - 1) ==> (TurnsDown(cfg, attempts(k - 1).outcome, f) <==> Refuses(cfg, attempts(k - 1).outcome))
  {
    RefusedBefore(cfg, attempts, armed, n, k);
    RefusedBefore(cfg, attempts, armed, n, k - 1);
    TurnedDownRefused(cfg, attempts(k - 1).outcome);
  }

  /** The attempt at k was sent for a reason that the attempts before it gave. */
  ghost predicate Reasoned(cfg: Config, attempts: nat -> Attempt, sent: seq<Sent>, at: seq<int>, k: nat, reason: Reason)
    requires 0 < k <= |sent| == |at| && !Answers(cfg, attempts(k - 1).outcome)
  {
    var f := FailureBefore(cfg, attempts, k);
    match reason
    case First => false
    case Local => LocalReason(cfg, attempts, sent, k, f)
    case Fast => FastReason(cfg, attempts, sent, k, f)
    case Swap => SwapReason(cfg, attempts, at, k, f)
  }

  lemma Reasons(cfg: Config, attempts: nat -> Attempt, sent: seq<Sent>, at: seq<int>, armed: Option<nat>, k: nat, reason: Reason)
    requires 0 < k <= |sent| == |at| && StepFits(cfg, attempts, sent, at, armed, k, reason)
    requires FirstRefusal(cfg, attempts, armed, |sent|)
    ensures !Answers(cfg, attempts(k - 1).outcome) && Reasoned(cfg, attempts, sent, at, k, reason)
  {
    FailureIs(cfg, attempts, armed, |sent|, k);
    var a, f := attempts(k - 1), FailureBefore(cfg, attempts, k);
    ChoiceDecides(cfg, a, f, armed.Some? && armed.value < k - 1, Repeats(sent[..k]), !NoFast(sent[..k]), UsedUpTo(at[k - 1]), reason);
    RefusalsKnown(cfg, attempts, armed, |sent|, k, f);
    if reason.Swap? {
      AnotherModel(cfg, at[k - 1]);
    } else if reason.Fast? {
      NoFastUpTo(sent, k);
    }
  }

  lemma NoFastUpTo(sent: seq<Sent>, k: nat)
    requires k <= |sent| && NoFast(sent[..k])
    ensures forall j | 0 <= j < k :: !sent[j].reason.Fast?
  {
    assert forall j | 0 <= j < k :: sent[..k][j] == sent[j];
  }

  /** Every attempt but the first was sent for such a reason. */
  lemma WhySent(cfg: Config, attempts: nat -> Attempt, sent: seq<Sent>, at: seq<int>, armed: Option<nat>, k: nat)
    requires Followed(cfg, attempts, sent, at, armed) && FirstRefusal(cfg, attempts, armed, |sent|) && 0 < k < |sent|
    ensures !Answers(cfg, attempts(k - 1).outcome) && Reasoned(cfg, attempts, sent, at, k, sent[k].reason)
  {
    assert StepFits(cfg, attempts, sent, at, armed, k, sent[k].reason);
    Reasons(cfg, attempts, sent, at, armed, k, sent[k].reason);
  }

  // --------------------------------------------------------------------------- the end ----

  /** How a request ends after a last attempt with this outcome that went downstream: cleanly after a whole
      response, or after the upstream's own final error; cut off after anything else. */
  ghost predicate EndsAs(cfg: Config, o: Outcome, res: Result) {
    && (res == Delivered <==> o == NonSse(true) || (o.Complete? && !(o.refusal && HasFallback(cfg))))
    && (forall f :: res == DeliveredInStream(f) <==> o == Failed(true, f) && f.delivered)
    && (res == Aborted <==> o == NonSse(false) || (o.Failed? && o.wrote && !o.fail.delivered))
  }

  lemma HowItEnds(h: Handler, ended: Option<Failure>, present: bool, res: Result)
    requires h.Concluded(ended, present, res)
    ensures h.sent != [] && EndsAs(h.cfg, h.attempts(|h.sent| - 1).outcome, res)
  {
    InterceptsIff(h.cfg);
  }

  /** Every model of the list but the original one was sent. */
  ghost predicate ListUsedUp(cfg: Config, at: seq<int>) {
    forall p | 0 <= p < |cfg.fallbacks| :: cfg.fallbacks[p] == cfg.firstModel || p in at
  }

  /** Nothing was left to try after a, whose failure is f. */
  ghost predicate Spent(cfg: Config, a: Attempt, f: Failure, refused: bool, sent: seq<Sent>, at: seq<int>) {
    if refused then
      || !cfg.rules.action(f).Next? || !a.swapOpen || !a.swapOk || (a.outcome.TransportError? && !a.sleeps)
      || ListUsedUp(cfg, at)
    else
      && (!f.transient || Repeats(sent) >= cfg.localRetries || !cfg.budgetLeft || !a.canWait || !a.sleeps)
      && (a.outcome.TransportError? || (a.outcome.HttpError? && f.retryAfter == 0) ==>
            cfg.localRetries != 0 || !f.fastRetry || !cfg.budgetLeft || !a.quick || !a.canWaitFast || !a.sleeps || !NoFast(sent))
  }

  lemma AllSent(cfg: Config, at: seq<int>, from: nat)
    requires from <= |cfg.fallbacks| && NextIndex(cfg, from) == |cfg.fallbacks| && NoneSkipped(cfg, at, -1, from)
    ensures ListUsedUp(cfg, at)
  {
    assert forall p | from <= p < |cfg.fallbacks| :: cfg.fallbacks[p] == cfg.firstModel;
  }

  /** A request ends without an answer only when nothing was left to try. */
  lemma WhySpent(h: Handler, ended: Option<Failure>, present: bool, res: Result)
    requires h.Concluded(ended, present, res) && !Answers(h.cfg, h.attempts(|h.sent| - 1).outcome)
    ensures h.sent != []
    ensures var n := |h.sent|;
      Spent(h.cfg, h.attempts(n - 1), FailureBefore(h.cfg, h.attempts, n), SomeRefused(h.cfg, h.attempts, n), h.sent, h.at)
  {
    OutcomesAre(h.cfg, h.attempts(|h.sent| - 1).outcome);
    FailureIs(h.cfg, h.attempts, h.armedAt, |h.sent|, |h.sent|);
    RefusedBefore(h.cfg, h.attempts, h.armedAt, |h.sent|, |h.sent|);
    if NextIndex(h.cfg, h.fallbackIndex) == |h.cfg.fallbacks| {
      AllSent(h.cfg, h.at, h.fallbackIndex);
    }
  }

  /** The answer that is held once attempt k refused: the refusal itself, or the error that it came as. */
  predicate AnswerOf(attempts: nat -> Attempt, k: nat, res: Result) {
    match attempts(k).outcome
    case Complete(_) => res == HeldAnswer(k)
    case HttpError(f, _) => res == Surfaced(f, false)
    case Failed(_, f) => res == Surfaced(f, false)
    case _ => false
  }

  /** What a request says that ends without an answer, its last failure being f: before any refusal that
      failure, with leave to retry if it may clear and the client's budget is not used up; after one, never
      with leave, and to a client that is still there the answer of the first attempt that refused, unless
      the failure stops the chain. */
  ghost predicate Says(cfg: Config, attempts: nat -> Attempt, n: nat, f: Failure, present: bool, res: Result) {
    if !SomeRefused(cfg, attempts, n) then res == Surfaced(f, f.transient && cfg.budgetLeft)
    else if !present || cfg.rules.action(f).Stop? then res == Surfaced(f, false)
    else exists k: nat :: k < n && !SomeRefused(cfg, attempts, k) && Declines(cfg, attempts(k).outcome) && AnswerOf(attempts, k, res)
  }

  /** That failure is the one of a request context that is over; else what the last attempt reports, or that a
      wait was cut short. */
  lemma WhatItSays(h: Handler, ended: Option<Failure>, present: bool, res: Result)
    requires h.Concluded(ended, present, res) && !Answers(h.cfg, h.attempts(|h.sent| - 1).outcome)
    ensures h.sent != []
    ensures var n := |h.sent|;
      && Says(h.cfg, h.attempts, n, h.last, present, res)
      && (if ended.Some? then h.last == ended.value
          else h.last == FailureBefore(h.cfg, h.attempts, n) || (h.last == h.attempts(n - 1).gone && !h.attempts(n - 1).sleeps))
  {
    var n := |h.sent|;
    OutcomesAre(h.cfg, h.attempts(n - 1).outcome);
    FailureIs(h.cfg, h.attempts, h.armedAt, n, n);
    RefusedBefore(h.cfg, h.attempts, h.armedAt, n, n);
    if h.armedAt.Some? {
      FirstDeclines(h.cfg, h.attempts, h.armedAt, n);
    }
  }

  lemma FirstDeclines(cfg: Config, attempts: nat -> Attempt, armed: Option<nat>, n: nat)
    requires FirstRefusal(cfg, attempts, armed, n) && armed.Some?
    ensures armed.value < n && !SomeRefused(cfg, attempts, armed.value) && Declines(cfg, attempts(armed.value).outcome)
    ensures AnswerOf(attempts, armed.value, FirstAnswer(attempts, armed.value))
  {
    RefusedBefore(cfg, attempts, armed, n, armed.value);
    OutcomesAre(cfg, attempts(armed.value).outcome);
  }
}
