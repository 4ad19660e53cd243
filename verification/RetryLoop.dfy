/**
 The attempt loop of one transactional request (main.go, handle): hidden retries, one shared fast
 retry, and an ordered chain of fallback models behind a held original answer. What the upstream,
 the clock and the client do is given attempt by attempt.
 */
module RetryLoop {
  import opened Common
  import opened Failures

  datatype Disposition = Stop | Next | Original

  /** What failures mean to the loop: a terminal safeguard refusal, what to do with one once a fallback
      chain has started, how an HTTP error is read from then on, and what a complete refusal is called. */
  datatype Rules = Rules(
    safeguard: Failure -> bool, action: Failure -> Disposition, inFallback: (Failure, bool) -> Failure,
    refused: Failure)

  datatype Config = Config(
    localRetries: int, fallbacks: seq<Bytes>, firstModel: Bytes, claudeMessages: bool, budgetLeft: bool, rules: Rules)

  datatype Outcome =
    | TransportError(fail: Failure)
    | HttpError(fail: Failure, readOk: bool)
    | NonSseUnread(fail: Failure)
    | NonSse(replayed: bool)
    | Complete(refusal: bool)
    | Failed(wrote: bool, fail: Failure)

  /** One attempt and the circumstances right after it; `gone` is the verdict if a wait is cut short. */
  datatype Attempt = Attempt(
    outcome: Outcome, quick: bool, canWait: bool, canWaitFast: bool, sleeps: bool, gone: Failure,
    swapOpen: bool, swapOk: bool)

  /** The first fallback at or after index i that is not the original model. */
  function NextIndex(cfg: Config, i: nat): (j: nat)
    requires i <= |cfg.fallbacks|
    ensures i <= j <= |cfg.fallbacks|
    ensures j < |cfg.fallbacks| ==> cfg.fallbacks[j] != cfg.firstModel
    ensures forall k | i <= k < j :: cfg.fallbacks[k] == cfg.firstModel
    decreases |cfg.fallbacks| - i
  {
    if i < |cfg.fallbacks| && cfg.fallbacks[i] == cfg.firstModel then NextIndex(cfg, i + 1) else i
  }

  /** Refusals are intercepted only for a Claude request that has some other model to fall back to. */
  predicate Intercepts(cfg: Config) {
    cfg.claudeMessages && NextIndex(cfg, 0) < |cfg.fallbacks|
  }

  // ------------------------------------------------------------------ what is promised ----

  /** The attempt refused: a complete refusal, or a terminal safeguard error before any commit. */
  predicate Refuses(cfg: Config, o: Outcome) {
    Intercepts(cfg) &&
    match o
    case Complete(refusal) => refusal
    case HttpError(f, _) => cfg.rules.safeguard(f)
    case Failed(wrote, f) => !wrote && cfg.rules.safeguard(f)
    case _ => false
  }

  /** Bytes of a response went downstream. */
  predicate Commits(cfg: Config, o: Outcome) {
    match o
    case NonSse(_) => true
    case Complete(refusal) => !(refusal && Intercepts(cfg))
    case Failed(wrote, _) => wrote
    case _ => false
  }

  /** What an attempt that committed nothing reports; `fallback` says that some earlier one refused. */
  function Verdict(cfg: Config, o: Outcome, fallback: bool): Failure
    requires !Commits(cfg, o)
  {
    match o
    case HttpError(f, readOk) => if fallback then cfg.rules.inFallback(f, readOk) else f
    case Complete(_) => cfg.rules.refused
    case TransportError(f) => f
    case NonSseUnread(f) => f
    case Failed(_, f) => f
  }

  /** Why an attempt was sent. */
  datatype Reason = First | Local | Fast | Swap

  datatype Sent = Sent(model: Bytes, reason: Reason)

  datatype Result =
    | Delivered
    | DeliveredInStream(fail: Failure)
    | Aborted
    | HeldAnswer(attempt: nat)
    | Surfaced(fail: Failure, canRetry: bool)

  /** How a committed attempt ends the request. */
  function Committed(o: Outcome): Result {
    match o
    case NonSse(replayed) => if replayed then Delivered else Aborted
    case Failed(_, f) => if f.delivered then DeliveredInStream(f) else Aborted
    case _ => Delivered
  }

  /** The answer of attempt k, given to the client instead of a fallback's. */
  function FirstAnswer(attempts: nat -> Attempt, k: nat): Result {
    match attempts(k).outcome
    case HttpError(f, _) => Surfaced(f, false)
    case Failed(_, f) => Surfaced(f, false)
    case _ => HeldAnswer(k)
  }

  predicate Repetition(r: Reason) {
    r.Local? || r.Fast?
  }

  /** Repetitions of an attempt on the same model. */
  function Repeats(sent: seq<Sent>): nat {
    if sent == [] then 0 else
    Repeats(sent[..|sent| - 1]) + (if Repetition(sent[|sent| - 1].reason) then 1 else 0)
  }

  function HiddenRetries(cfg: Config): nat {
    if cfg.localRetries > 0 then cfg.localRetries else 0
  }

  /** Of the first n attempts, `armed` is the first that refused; None if none did. */
  ghost predicate FirstRefusal(cfg: Config, attempts: nat -> Attempt, armed: Option<nat>, n: nat) {
    match armed
    case None => forall k: nat | k < n :: !Refuses(cfg, attempts(k).outcome)
    case Some(a) =>
      a < n && Refuses(cfg, attempts(a).outcome) && forall k: nat | k < a :: !Refuses(cfg, attempts(k).outcome)
  }

  ghost predicate NoneCommitted(cfg: Config, attempts: nat -> Attempt, n: nat) {
    forall k: nat | k < n :: !Commits(cfg, attempts(k).outcome)
  }

  /** Where a model stands in the fallback list; -1 stands for the original model. */
  predicate StandsAt(cfg: Config, model: Bytes, place: int, bound: nat) {
    if place < 0 then model == cfg.firstModel
    else place < bound <= |cfg.fallbacks| && model == cfg.fallbacks[place] && model != cfg.firstModel
  }

  /** The models sent: the original up to and including the first refusal, then candidates in list
      order. A candidate is sent once, apart from one fast repetition right after itself; that fast
      repetition is the only one of the request. */
  ghost predicate InOrder(cfg: Config, sent: seq<Sent>, at: seq<int>, armed: Option<nat>, bound: nat) {
    && |at| == |sent|
    && (forall k | 0 <= k < |sent| :: StandsAt(cfg, sent[k].model, at[k], bound))
    && (forall k | 0 <= k < |sent| :: at[k] < 0 <==> armed.None? || k <= armed.value)
    && (forall i, j | 0 <= i < j < |sent| :: Rising(sent, at, i, j))
  }

  /** Attempt j stands behind attempt i in the list, or repeats it at once; not both are fast. */
  predicate Rising(sent: seq<Sent>, at: seq<int>, i: nat, j: nat)
    requires i < j < |sent| == |at|
  {
    && (at[i] >= 0 ==> at[i] < at[j] || (at[i] == at[j] && j == i + 1 && sent[j].reason.Fast?))
    && !(sent[i].reason.Fast? && sent[j].reason.Fast?)
  }

  /** Every list entry below `bound` has been sent, or stands at `place`; only the original model is
      passed over. */
  ghost predicate NoneSkipped(cfg: Config, at: seq<int>, place: int, bound: nat) {
    forall k | 0 <= k < bound <= |cfg.fallbacks| :: cfg.fallbacks[k] == cfg.firstModel || k in at || k == place
  }

  ghost predicate NoFast(sent: seq<Sent>) {
    forall i | 0 <= i < |sent| :: !sent[i].reason.Fast?
  }

  /** The next attempt, on the model standing at `place`, keeps the order. */
  ghost predicate Continues(sent: seq<Sent>, at: seq<int>, place: int, reason: Reason)
    requires |at| == |sent|
  {
    && (forall i | 0 <= i < |sent| && at[i] >= 0 :: at[i] < place || (at[i] == place && i == |sent| - 1 && reason.Fast?))
    && (reason.Fast? ==> NoFast(sent))
  }

  lemma SwapContinues(cfg: Config, sent: seq<Sent>, at: seq<int>, armed: Option<nat>, bound: nat, j: nat, place: int)
    requires InOrder(cfg, sent, at, armed, bound) && bound <= j <= |cfg.fallbacks|
    ensures InOrder(cfg, sent, at, armed, j)
    ensures place >= j ==> Continues(sent, at, place, Swap)
  {
    assert forall k | 0 <= k < |sent| :: StandsAt(cfg, sent[k].model, at[k], bound) ==> StandsAt(cfg, sent[k].model, at[k], j);
  }

  lemma {:induction false} FastContinues(cfg: Config, sent: seq<Sent>, at: seq<int>, armed: Option<nat>, bound: nat)
    requires InOrder(cfg, sent, at, armed, bound) && sent != [] && NoFast(sent)
    ensures Continues(sent, at, at[|sent| - 1], Fast)
  {
    forall i | 0 <= i < |sent| - 1 && at[i] >= 0
      ensures at[i] < at[|sent| - 1]
    {
      assert Rising(sent, at, i, |sent| - 1);
    }
  }

  /** Sending it keeps the order. */
  lemma SendKeepsOrder(cfg: Config, sent: seq<Sent>, at: seq<int>, armed: Option<nat>, bound: nat, s: Sent, place: int)
    requires InOrder(cfg, sent, at, armed, bound) && StandsAt(cfg, s.model, place, bound)
    requires Continues(sent, at, place, s.reason)
    requires place < 0 <==> armed.None?
    requires armed.Some? ==> armed.value < |sent|
    ensures InOrder(cfg, sent + [s], at + [place], armed, bound)
  {
    var sent2, at2 := sent + [s], at + [place];
    forall k | 0 <= k < |sent2|
      ensures StandsAt(cfg, sent2[k].model, at2[k], bound)
      ensures at2[k] < 0 <==> armed.None? || k <= armed.value
    {
      if k < |sent| {
        assert StandsAt(cfg, sent[k].model, at[k], bound);
      }
    }
    forall i, j | 0 <= i < j < |sent2|
      ensures Rising(sent2, at2, i, j)
    {
      if j < |sent| {
        assert Rising(sent, at, i, j);
      }
    }
  }

  lemma SkipsPush(cfg: Config, at: seq<int>, place: int, bound: nat)
    requires NoneSkipped(cfg, at, place, bound)
    ensures NoneSkipped(cfg, at + [place], place, bound)
  {
    assert place in at + [place] && forall p | p in at :: p in at + [place];
  }

  lemma FastPush(sent: seq<Sent>, s: Sent)
    ensures NoFast(sent + [s]) <==> NoFast(sent) && !s.reason.Fast?
  {
    assert (sent + [s])[|sent|] == s;
    if NoFast(sent + [s]) {
      forall i | 0 <= i < |sent| ensures !sent[i].reason.Fast? {
        assert (sent + [s])[i] == sent[i];
      }
    }
  }

  lemma SentKeepsAll(cfg: Config, sent: seq<Sent>, at: seq<int>, armed: Option<nat>, bound: nat, s: Sent, place: int,
    next: seq<Sent>, nextAt: seq<int>)
    requires InOrder(cfg, sent, at, armed, bound) && StandsAt(cfg, s.model, place, bound)
    requires Continues(sent, at, place, s.reason) && NoneSkipped(cfg, at, place, bound)
    requires place < 0 <==> armed.None?
    requires armed.Some? ==> armed.value < |sent|
    requires next == sent + [s] && nextAt == at + [place]
    ensures InOrder(cfg, next, nextAt, armed, bound) && NoneSkipped(cfg, nextAt, place, bound)
    ensures NoFast(next) <==> NoFast(sent) && !s.reason.Fast?
    ensures Repeats(next) == Repeats(sent) + (if Repetition(s.reason) then 1 else 0)
    ensures |next| == |nextAt| == |sent| + 1 && nextAt[|sent|] == place
  {
    SendKeepsOrder(cfg, sent, at, armed, bound, s, place);
    RepeatsPush(sent, s);
    SkipsPush(cfg, at, place, bound);
    FastPush(sent, s);
  }

  lemma RepeatsPush(sent: seq<Sent>, s: Sent)
    ensures Repeats(sent + [s]) == Repeats(sent) + (if Repetition(s.reason) then 1 else 0)
  {
    assert (sent + [s])[..|sent|] == sent;
  }

  /** No hidden retry was possible any more, after `used` repetitions. */
  predicate NoLocal(cfg: Config, a: Attempt, f: Failure, used: nat) {
    !f.transient || used >= HiddenRetries(cfg) || !cfg.budgetLeft || !a.canWait || !a.sleeps
  }

  /** With hidden retries configured off, the one fast retry was not possible either. */
  predicate NoFastRetry(cfg: Config, a: Attempt, f: Failure, used: bool) {
    used || cfg.localRetries != 0 || !f.fastRetry || !cfg.budgetLeft || !a.quick || !a.canWaitFast || !a.sleeps
  }

  /** No further candidate could be sent, the list being used up to `from`. */
  predicate NoCandidate(cfg: Config, a: Attempt, from: nat)
    requires from <= |cfg.fallbacks|
  {
    !a.swapOpen || !a.swapOk || NextIndex(cfg, from) == |cfg.fallbacks|
  }

  /** The fast retry is there to be used; a wait that is cut short still ends the request. */
  predicate FastOpen(cfg: Config, a: Attempt, f: Failure, used: bool) {
    !used && f.fastRetry && cfg.budgetLeft && a.quick && a.canWaitFast
  }

  /** A candidate, for an attempt that is not a refusal itself. */
  predicate MovesOn(cfg: Config, a: Attempt, f: Failure, fallback: bool, from: nat)
    requires from <= |cfg.fallbacks|
  {
    fallback && cfg.rules.action(f).Next? && !NoCandidate(cfg, a, from)
  }

  predicate LocalOpen(cfg: Config, a: Attempt, f: Failure, fallback: bool, used: nat) {
    !fallback && !NoLocal(cfg, a, f, used)
  }

  /** A transport failure is repeated before any candidate is tried. */
  function TransportChoice(cfg: Config, a: Attempt, f: Failure, fallback: bool, used: nat, fastUsed: bool, from: nat): Option<Reason>
    requires from <= |cfg.fallbacks|
  {
    if LocalOpen(cfg, a, f, fallback, used) then Some(Local) else FastOrSwap(cfg, a, f, fallback, fastUsed, from)
  }

  function FastOrSwap(cfg: Config, a: Attempt, f: Failure, fallback: bool, fastUsed: bool, from: nat): Option<Reason>
    requires from <= |cfg.fallbacks|
  {
    if (fallback || cfg.localRetries == 0) && FastOpen(cfg, a, f, fastUsed) then
      if a.sleeps then Some(Fast) else None
    else if MovesOn(cfg, a, f, fallback, from) then Some(Swap) else None
  }

  /** The fast repetition of an error status, only where hidden retries are configured off. */
  function RepeatChoice(cfg: Config, a: Attempt, f: Failure, fallback: bool, used: nat, fastUsed: bool): Option<Reason> {
    if LocalOpen(cfg, a, f, fallback, used) then Some(Local)
    else if !fallback && cfg.localRetries == 0 && f.retryAfter == 0 && FastOpen(cfg, a, f, fastUsed) && a.sleeps then Some(Fast)
    else None
  }

  /** An error status is repeated only when no candidate is tried. */
  function ErrorChoice(cfg: Config, a: Attempt, f: Failure, fallback: bool, used: nat, fastUsed: bool, from: nat): Option<Reason>
    requires from <= |cfg.fallbacks|
  {
    if MovesOn(cfg, a, f, fallback, from) then Some(Swap) else RepeatChoice(cfg, a, f, fallback, used, fastUsed)
  }

  function PlainChoice(cfg: Config, a: Attempt, f: Failure, fallback: bool, used: nat, from: nat): Option<Reason>
    requires from <= |cfg.fallbacks|
  {
    if MovesOn(cfg, a, f, fallback, from) then Some(Swap)
    else if LocalOpen(cfg, a, f, fallback, used) then Some(Local)
    else None
  }

  /** An attempt that refused: only a candidate can follow. */
  predicate TurnsDown(cfg: Config, o: Outcome, f: Failure) {
    o.Complete? || (Intercepts(cfg) && cfg.rules.safeguard(f) && (o.HttpError? || o.Failed?))
  }

  /** What is sent next after attempt a, which committed nothing and whose verdict is f, or None when
      the request ends. */
  function Choice(cfg: Config, a: Attempt, f: Failure, fallback: bool, used: nat, fastUsed: bool, from: nat): Option<Reason>
    requires from <= |cfg.fallbacks|
  {
    if TurnsDown(cfg, a.outcome, f) then
      if NoCandidate(cfg, a, from) then None else Some(Swap)
    else if a.outcome.TransportError? then TransportChoice(cfg, a, f, fallback, used, fastUsed, from)
    else if a.outcome.HttpError? then ErrorChoice(cfg, a, f, fallback, used, fastUsed, from)
    else PlainChoice(cfg, a, f, fallback, used, from)
  }

  /** Why the request ended at attempt a, whose verdict is f. */
  predicate Exhausted(cfg: Config, a: Attempt, f: Failure, armed: bool, used: nat, fastUsed: bool, from: nat)
    requires from <= |cfg.fallbacks|
  {
    if armed then
      !cfg.rules.action(f).Next? || NoCandidate(cfg, a, from) || (a.outcome.TransportError? && !a.sleeps)
    else
      && NoLocal(cfg, a, f, used)
      && (a.outcome.TransportError? ==> NoFastRetry(cfg, a, f, fastUsed))
      && (a.outcome.HttpError? && f.retryAfter == 0 ==> NoFastRetry(cfg, a, f, fastUsed))
  }

  /** When nothing is sent next, nothing could be. */
  lemma NoChoice(cfg: Config, a: Attempt, f: Failure, fallback: bool, used: nat, fastUsed: bool, from: nat)
    requires from <= |cfg.fallbacks| && Choice(cfg, a, f, fallback, used, fastUsed, from) == None
    ensures Exhausted(cfg, a, f, fallback || TurnsDown(cfg, a.outcome, f), used, fastUsed, from)
  {
  }

  /** Passing over the original model changes nothing. */
  lemma SameChoice(cfg: Config, a: Attempt, f: Failure, fallback: bool, used: nat, fastUsed: bool, from: nat, to: nat)
    requires from <= |cfg.fallbacks| && to <= |cfg.fallbacks| && NextIndex(cfg, from) == NextIndex(cfg, to)
    ensures Choice(cfg, a, f, fallback, used, fastUsed, from) == Choice(cfg, a, f, fallback, used, fastUsed, to)
  {
  }

  // ------------------------------------------------------------------- the run as a whole ----

  /** How far the list is used up once the model at this place was sent. */
  function UsedUpTo(place: int): nat {
    if place < 0 then 0 else place + 1
  }

  /** After the first k attempts, this is the reason that the table gives for the next one. */
  ghost predicate StepFits(cfg: Config, attempts: nat -> Attempt, sent: seq<Sent>, at: seq<int>, armed: Option<nat>, k: nat, reason: Reason)
    requires 0 < k <= |sent| == |at|
  {
    var a := attempts(k - 1);
    var fallback := armed.Some? && armed.value < k - 1;
    && !Commits(cfg, a.outcome) && UsedUpTo(at[k - 1]) <= |cfg.fallbacks|
    && Choice(cfg, a, Verdict(cfg, a.outcome, fallback), fallback, Repeats(sent[..k]), !NoFast(sent[..k]), UsedUpTo(at[k - 1])) == Some(reason)
  }

  /** Every attempt after the first was sent for the reason that the table gives, from the outcomes before
      it and nothing else. */
  ghost predicate Followed(cfg: Config, attempts: nat -> Attempt, sent: seq<Sent>, at: seq<int>, armed: Option<nat>) {
    |sent| == |at| && forall k | 0 < k < |sent| :: StepFits(cfg, attempts, sent, at, armed, k, sent[k].reason)
  }

  /** The first refusal, once known, stays. */
  lemma SameRefusal(cfg: Config, attempts: nat -> Attempt, armed: Option<nat>, armed2: Option<nat>, n: nat)
    requires FirstRefusal(cfg, attempts, armed, n) && FirstRefusal(cfg, attempts, armed2, n + 1)
    ensures armed2 == armed || (armed.None? && armed2 == Some(n))
  {
  }

  /** What fitted goes on to fit. */
  lemma StepStays(cfg: Config, attempts: nat -> Attempt, sent: seq<Sent>, at: seq<int>, armed: Option<nat>, k: nat, reason: Reason,
    s: Sent, place: int, armed2: Option<nat>)
    requires 0 < k <= |sent| == |at| && StepFits(cfg, attempts, sent, at, armed, k, reason)
    requires armed2 == armed || (armed.None? && armed2 == Some(|sent|))
    ensures StepFits(cfg, attempts, sent + [s], at + [place], armed2, k, reason)
  {
    assert (sent + [s])[..k] == sent[..k] && (at + [place])[k - 1] == at[k - 1];
  }

  lemma FollowedPush(cfg: Config, attempts: nat -> Attempt, sent: seq<Sent>, at: seq<int>, armed: Option<nat>, s: Sent, place: int, armed2: Option<nat>)
    requires Followed(cfg, attempts, sent, at, armed)
    requires sent != [] ==> StepFits(cfg, attempts, sent, at, armed, |sent|, s.reason)
    requires armed2 == armed || (armed.None? && armed2 == Some(|sent|))
    ensures Followed(cfg, attempts, sent + [s], at + [place], armed2)
  {
    var sent2, at2 := sent + [s], at + [place];
    forall k | 0 < k < |sent2| ensures StepFits(cfg, attempts, sent2, at2, armed2, k, sent2[k].reason) {
      if k < |sent| {
        StepStays(cfg, attempts, sent, at, armed, k, sent[k].reason, s, place, armed2);
      } else {
        StepStays(cfg, attempts, sent, at, armed, k, s.reason, s, place, armed2);
      }
    }
  }

  /** One more attempt, from a run that followed the table. */
  lemma RoundFollows(cfg: Config, attempts: nat -> Attempt, was: seq<Sent>, wasAt: seq<int>, armed: Option<nat>, s: Sent, place: int, armed2: Option<nat>)
    requires Followed(cfg, attempts, was, wasAt, armed)
    requires was != [] ==> StepFits(cfg, attempts, was, wasAt, armed, |was|, s.reason)
    requires FirstRefusal(cfg, attempts, armed, |was|) && FirstRefusal(cfg, attempts, armed2, |was| + 1)
    ensures Followed(cfg, attempts, was + [s], wasAt + [place], armed2)
  {
    SameRefusal(cfg, attempts, armed, armed2, |was|);
    FollowedPush(cfg, attempts, was, wasAt, armed, s, place, armed2);
  }

  lemma RoundFits(cfg: Config, attempts: nat -> Attempt, was: seq<Sent>, wasAt: seq<int>, armed: Option<nat>, s: Sent, place: int, armed2: Option<nat>,
    reason: Reason)
    requires |was| == |wasAt| && !Commits(cfg, attempts(|was|).outcome) && UsedUpTo(place) <= |cfg.fallbacks|
    requires FirstRefusal(cfg, attempts, armed, |was|) && FirstRefusal(cfg, attempts, armed2, |was| + 1)
    requires Choice(cfg, attempts(|was|), Verdict(cfg, attempts(|was|).outcome, armed.Some?), armed.Some?,
                    Repeats(was + [s]), !NoFast(was + [s]), UsedUpTo(place)) == Some(reason)
    ensures StepFits(cfg, attempts, was + [s], wasAt + [place], armed2, |was| + 1, reason)
  {
    SameRefusal(cfg, attempts, armed, armed2, |was|);
    var sent := was + [s];
    assert sent[..|was| + 1] == sent;
  }

  /** Between the place of the last model and the index only the original model is listed. */
  lemma {:induction false} OnlyOriginal(cfg: Config, from: nat, to: nat)
    requires from <= to <= |cfg.fallbacks| && forall p | from <= p < to :: cfg.fallbacks[p] == cfg.firstModel
    ensures NextIndex(cfg, from) == NextIndex(cfg, to)
    decreases |cfg.fallbacks| - from
  {
    if from < to {
      OnlyOriginal(cfg, from + 1, to);
    }
  }

  /** With a list free of duplicates, no candidate is sent twice, apart from the fast repetition, and
      the original model never follows a candidate. */
  lemma NoModelTwice(cfg: Config, sent: seq<Sent>, at: seq<int>, armed: Option<nat>, bound: nat, i: nat, j: nat)
    requires InOrder(cfg, sent, at, armed, bound) && i < j < |sent|
    requires forall p, q | 0 <= p < q < |cfg.fallbacks| :: cfg.fallbacks[p] != cfg.fallbacks[q]
    ensures sent[i].model != cfg.firstModel ==> sent[j].model != cfg.firstModel
    ensures sent[i].model == sent[j].model && sent[i].model != cfg.firstModel ==> j == i + 1 && sent[j].reason.Fast?
  {
    assert StandsAt(cfg, sent[i].model, at[i], bound) && StandsAt(cfg, sent[j].model, at[j], bound);
    assert Rising(sent, at, i, j);
    if at[i] >= 0 && at[i] < at[j] {
      assert cfg.fallbacks[at[i]] != cfg.fallbacks[at[j]];
    }
  }

  datatype Judgment = Judgment(ready: bool, attempted: bool)

  datatype Closing = Closing(settled: bool, ended: bool)

  datatype Promise = Promise(kept: bool)

  // ---------------------------------------------------------------------- the machine ----

  class Handler {
    const cfg: Config
    const attempts: nat -> Attempt
    var proxyRetries: nat
    var fastUsed: bool
    var fallbackIndex: nat
    var model: Bytes
    var reason: Reason
    var heldRefusal: Option<nat>
    var heldSafeguard: Option<Failure>
    var last: Failure
    var sent: seq<Sent>
    /** The first attempt that refused. */
    ghost var armedAt: Option<nat>
    /** Where the current model stands in the list, and where each model sent stood. */
    ghost var place: int
    ghost var at: seq<int>

    predicate Active()
      reads this`heldRefusal, this`heldSafeguard
    {
      heldRefusal.Some? || heldSafeguard.Some?
    }

    /** The budget that every repetition uses up. */
    function Left(): int
      reads this`proxyRetries, this`fastUsed, this`fallbackIndex
    {
      var n := HiddenRetries(cfg);
      (if proxyRetries < n then n - proxyRetries else 0) + (if fastUsed then 0 else 1) + |cfg.fallbacks| - fallbackIndex
    }

    /** Exactly the answer of the first refusing attempt is held. */
    ghost predicate HoldsFirst(n: nat)
      reads this`heldRefusal, this`heldSafeguard, this`armedAt
    {
      && FirstRefusal(cfg, attempts, armedAt, n)
      && (armedAt.None? ==> !Active())
      && (armedAt.Some? ==>
        match attempts(armedAt.value).outcome
        case Complete(_) => heldRefusal == armedAt && heldSafeguard == None
        case HttpError(f, _) => heldRefusal == None && heldSafeguard == Some(f)
        case Failed(_, f) => heldRefusal == None && heldSafeguard == Some(f)
        case _ => false)
    }

    ghost predicate Shape(sent: seq<Sent>, at: seq<int>)
      reads this`fallbackIndex, this`armedAt, this`model, this`place
    {
      && fallbackIndex <= |cfg.fallbacks|
      && InOrder(cfg, sent, at, armedAt, fallbackIndex)
      && StandsAt(cfg, model, place, fallbackIndex)
      && NoneSkipped(cfg, at, place, fallbackIndex)
    }

    /** Both judgments on the fields when these models were sent, n attempts being accounted for. */
    ghost function Books(sent: seq<Sent>, at: seq<int>, n: nat): Judgment
      reads this`fallbackIndex, this`armedAt, this`model, this`place, this`heldRefusal, this`heldSafeguard,
        this`fastUsed, this`proxyRetries, this`reason
    {
      var common := Shape(sent, at) && HoldsFirst(n) && NoneCommitted(cfg, attempts, n);
      Judgment(
        ready := common && n == |sent|
          && (place < 0 <==> armedAt.None?)
          && Continues(sent, at, place, reason) && (fastUsed <==> reason.Fast? || !NoFast(sent))
          && proxyRetries == Repeats(sent) + (if Repetition(reason) then 1 else 0)
          && |sent| + Left() <= HiddenRetries(cfg) + 1 + |cfg.fallbacks|,
        attempted := common && sent != [] && at[|sent| - 1] == place
          && proxyRetries == Repeats(sent) && (fastUsed <==> !NoFast(sent))
          && |sent| + Left() <= HiddenRetries(cfg) + 2 + |cfg.fallbacks|)
    }

    /** Before an attempt. */
    ghost predicate Ready()
      reads this`fallbackIndex, this`sent, this`at, this`armedAt, this`model, this`place, this`heldRefusal, this`heldSafeguard,
        this`fastUsed, this`proxyRetries, this`reason
    {
      Books(sent, at, |sent|).ready
    }

    /** After an attempt; n attempts are accounted for. */
    ghost predicate Attempted(n: nat)
      reads this`fallbackIndex, this`sent, this`at, this`armedAt, this`model, this`place, this`heldRefusal, this`heldSafeguard,
        this`fastUsed, this`proxyRetries, this`reason
    {
      Books(sent, at, n).attempted
    }

    ghost predicate Answered()
      reads this`fallbackIndex, this`sent, this`at, this`armedAt, this`model, this`place, this`heldRefusal, this`heldSafeguard,
        this`fastUsed, this`proxyRetries, this`reason
    {
      Attempted(|sent|)
    }

    /** An earlier attempt refused. */
    ghost predicate Fallback()
      requires sent != []
      reads this`sent, this`armedAt
    {
      armedAt.Some? && armedAt.value < |sent| - 1
    }

    constructor (cfg: Config, attempts: nat -> Attempt)
      ensures this.cfg == cfg && this.attempts == attempts && Ready() && sent == []
    {
      this.cfg, this.attempts := cfg, attempts;
      proxyRetries, fastUsed := 0, false;
      fallbackIndex := if cfg.claudeMessages then NextIndex(cfg, 0) else 0;
      model, reason, place := cfg.firstModel, First, -1;
      heldRefusal, heldSafeguard, last, sent := None, None, cfg.rules.refused, [];
      armedAt, at := None, [];
    }

    /** One hidden retry of the original model, while its budget lasts. */
    method TryLocalRetry(a: Attempt) returns (again: bool)
      requires Answered()
      modifies this`proxyRetries, this`reason, this`last
      ensures again ==> Ready() && Left() < old(Left())
      ensures !again ==> Answered() && proxyRetries == old(proxyRetries)
      ensures !again ==> last == old(last) || (last == a.gone && !a.sleeps && !Active() && cfg.localRetries > 0)
      ensures again <==> !Active() && !NoLocal(cfg, a, old(last), old(proxyRetries))
      ensures again ==> reason == Local && model == cfg.firstModel && proxyRetries == old(proxyRetries) + 1
    {
      if Active() || cfg.localRetries <= 0 || proxyRetries >= cfg.localRetries || !last.transient || !cfg.budgetLeft {
        return false;
      }
      if !a.canWait {
        return false;
      }
      if !a.sleeps {
        last := a.gone;
        return false;
      }
      proxyRetries, reason := proxyRetries + 1, Local;
      return true;
    }

    /** The one fast retry of the request, whichever model it falls on, unless its wait is cut short, which
        ends the request. */
    method TakeFast(a: Attempt) returns (again: bool)
      requires Answered() && FastOpen(cfg, a, last, fastUsed)
      requires armedAt.Some? ==> Fallback()
      modifies this`proxyRetries, this`fastUsed, this`reason, this`last
      ensures again <==> a.sleeps
      ensures again ==> Ready() && Left() < old(Left()) && reason == Fast && fastUsed
      ensures !again ==> Answered() && proxyRetries == old(proxyRetries) && fastUsed == old(fastUsed) && last == a.gone
    {
      if !a.sleeps {
        last := a.gone;
        return false;
      }
      FastContinues(cfg, sent, at, armedAt, fallbackIndex);
      fastUsed, proxyRetries, reason := true, proxyRetries + 1, Fast;
      return true;
    }

    /** Skip the original model in the list; what is left is as before, or less. */
    method SkipOriginal()
      requires Answered()
      modifies this`fallbackIndex
      ensures Answered() && fallbackIndex == NextIndex(cfg, old(fallbackIndex)) && Left() <= old(Left())
    {
      var j := NextIndex(cfg, fallbackIndex);
      SwapContinues(cfg, sent, at, armedAt, fallbackIndex, j, j);
      fallbackIndex := j;
    }

    /** Take the candidate at hand. */
    method TakeCandidate()
      requires Answered() && armedAt.Some?
      requires fallbackIndex < |cfg.fallbacks| && cfg.fallbacks[fallbackIndex] != cfg.firstModel
      modifies this`fallbackIndex, this`model, this`reason, this`place
      ensures Ready() && Left() < old(Left())
      ensures reason == Swap && place == old(fallbackIndex) && model == cfg.fallbacks[place] && fallbackIndex == place + 1
    {
      SwapContinues(cfg, sent, at, armedAt, fallbackIndex, fallbackIndex, fallbackIndex);
      SwapContinues(cfg, sent, at, armedAt, fallbackIndex, fallbackIndex + 1, fallbackIndex);
      model, reason, place := cfg.fallbacks[fallbackIndex], Swap, fallbackIndex;
      fallbackIndex := fallbackIndex + 1;
    }

    /** The next candidate, if the deadlines and the request body allow one more attempt. */
    method SwapToFallback(a: Attempt) returns (again: bool)
      requires Answered() && armedAt.Some?
      modifies this`fallbackIndex, this`model, this`reason, this`place
      ensures again ==> Ready() && Left() < old(Left())
      ensures !again ==> Answered() && NoCandidate(cfg, a, fallbackIndex) && Left() <= old(Left())
      ensures again <==> !NoCandidate(cfg, a, old(fallbackIndex))
      ensures again ==> reason == Swap && place == NextIndex(cfg, old(fallbackIndex)) && model == cfg.fallbacks[place] && fallbackIndex == place + 1
      ensures !again ==> NextIndex(cfg, fallbackIndex) == NextIndex(cfg, old(fallbackIndex))
    {
      if !a.swapOpen {
        return false;
      }
      SkipOriginal();
      if fallbackIndex == |cfg.fallbacks| || !a.swapOk {
        return false;
      }
      TakeCandidate();
      return true;
    }

    method AdvanceFallback(a: Attempt) returns (again: bool)
      requires Answered()
      modifies this`fallbackIndex, this`model, this`reason, this`place
      ensures again ==> Ready() && Left() < old(Left()) && reason == Swap
      ensures !again ==> Answered() && Left() <= old(Left())
      ensures again <==> armedAt.Some? && cfg.rules.action(last).Next? && !NoCandidate(cfg, a, old(fallbackIndex))
      ensures !again ==> NextIndex(cfg, fallbackIndex) == NextIndex(cfg, old(fallbackIndex))
    {
      if !Active() || !cfg.rules.action(last).Next? {
        return false;
      }
      again := SwapToFallback(a);
    }

    /** Hold this attempt's answer unless an earlier one is held. */
    method Hold(a: Attempt)
      requires Current(a) && Intercepts(cfg) && !Commits(cfg, a.outcome)
      requires !Active() ==> Refuses(cfg, a.outcome)
      modifies this`heldRefusal, this`heldSafeguard, this`armedAt
      ensures Answered() && armedAt.Some?
      ensures Fallback() <==> old(armedAt.Some?)
    {
      if !Active() {
        match a.outcome {
          case Complete(_) => heldRefusal := Some(|sent| - 1);
          case HttpError(f, _) => heldSafeguard := Some(f);
          case Failed(_, f) => heldSafeguard := Some(f);
        }
        armedAt := Some(|sent| - 1);
      }
    }

    /** The books once the current model is sent. */
    lemma BooksAfter(sent: seq<Sent>, at: seq<int>)
      requires Books(sent, at, |sent|).ready
      ensures Books(sent + [Sent(model, reason)], at + [place], |sent|).attempted
    {
      SentKeepsAll(cfg, sent, at, armedAt, fallbackIndex, Sent(model, reason), place, sent + [Sent(model, reason)], at + [place]);
    }

    /** Send the request with the current model. */
    method Send()
      requires Ready()
      modifies this`sent, this`at
      ensures sent == old(sent) + [Sent(model, reason)] && at == old(at) + [place]
      ensures Attempted(|old(sent)|) && Left() == old(Left())
    {
      BooksAfter(sent, at);
      sent, at := sent + [Sent(model, reason)], at + [place];
    }

    /** The current attempt is the one that a describes, and only its outcome is not yet accounted for. */
    ghost predicate Current(a: Attempt)
      reads this`fallbackIndex, this`sent, this`at, this`armedAt, this`model, this`place, this`heldRefusal, this`heldSafeguard,
        this`fastUsed, this`proxyRetries, this`reason
    {
      sent != [] && Attempted(|sent| - 1) && a == attempts(|sent| - 1)
    }

    /** What the rules say is sent after the current attempt. */
    ghost function Due(a: Attempt): Option<Reason>
      requires sent != [] && fallbackIndex <= |cfg.fallbacks| && !Commits(cfg, a.outcome)
      reads this`sent, this`armedAt, this`proxyRetries, this`fastUsed, this`fallbackIndex
    {
      Choice(cfg, a, Verdict(cfg, a.outcome, armedAt.Some?), armedAt.Some?, proxyRetries, fastUsed, fallbackIndex)
    }

    /** The same before it is sent, for the outcome a. */
    ghost function DueAfter(a: Attempt): Option<Reason>
      requires fallbackIndex <= |cfg.fallbacks|
      reads this`armedAt, this`proxyRetries, this`fastUsed, this`fallbackIndex
    {
      if Commits(cfg, a.outcome) then None else
      Choice(cfg, a, Verdict(cfg, a.outcome, armedAt.Some?), armedAt.Some?, proxyRetries, fastUsed, fallbackIndex)
    }

    /** The current attempt reports this, in the light of an earlier refusal. */
    ghost function Reported(a: Attempt): Failure
      requires sent != [] && !Commits(cfg, a.outcome)
      reads this`sent, this`armedAt
    {
      Verdict(cfg, a.outcome, Fallback())
    }

    /** The current attempt is accounted for, and is no refusal of its own. */
    ghost predicate Plain(a: Attempt)
      reads this`fallbackIndex, this`sent, this`at, this`armedAt, this`model, this`place, this`heldRefusal, this`heldSafeguard,
        this`fastUsed, this`proxyRetries, this`reason
    {
      PlainBooks(a).kept
    }

    ghost function PlainBooks(a: Attempt): Promise
      reads this`fallbackIndex, this`sent, this`at, this`armedAt, this`model, this`place, this`heldRefusal, this`heldSafeguard,
        this`fastUsed, this`proxyRetries, this`reason
    {
      Promise(Answered() && a == attempts(|sent| - 1) && !Commits(cfg, a.outcome) && (armedAt.Some? ==> Fallback()))
    }

    /** Both judgments on an attempt that committed nothing. */
    ghost function Close(a: Attempt): Closing
      reads this`fallbackIndex, this`sent, this`at, this`armedAt, this`model, this`place, this`heldRefusal, this`heldSafeguard,
        this`fastUsed, this`proxyRetries, this`reason, this`last
    {
      var settled :=
        && Answered() && a == attempts(|sent| - 1) && !Commits(cfg, a.outcome)
        && (last == Reported(a) || (last == a.gone && !a.sleeps));
      Closing(settled, settled
        && Choice(cfg, a, Reported(a), Fallback(), proxyRetries, fastUsed, fallbackIndex) == None
        && (armedAt.Some? <==> Fallback() || TurnsDown(cfg, a.outcome, Reported(a))))
    }

    /** The request ends without an answer from this attempt. */
    ghost predicate Settled(a: Attempt)
      reads this`fallbackIndex, this`sent, this`at, this`armedAt, this`model, this`place, this`heldRefusal, this`heldSafeguard,
        this`fastUsed, this`proxyRetries, this`reason, this`last
    {
      Close(a).settled
    }

    /** Nothing more could have been sent. */
    ghost predicate Ended(a: Attempt)
      reads this`fallbackIndex, this`sent, this`at, this`armedAt, this`model, this`place, this`heldRefusal, this`heldSafeguard,
        this`fastUsed, this`proxyRetries, this`reason, this`last
    {
      Close(a).ended
    }

    lemma ActiveIsArmed()
      requires Answered()
      ensures Active() <==> armedAt.Some?
    {
    }

    lemma Settles(a: Attempt)
      requires Answered() && a == attempts(|sent| - 1) && !Commits(cfg, a.outcome)
      requires last == Reported(a) || (last == a.gone && !a.sleeps)
      ensures Settled(a)
    {
    }

    /** What was decided at index `from` stands. */
    lemma Closes(a: Attempt, from: nat)
      requires Settled(a) && from <= |cfg.fallbacks| && NextIndex(cfg, from) == NextIndex(cfg, fallbackIndex)
      requires Choice(cfg, a, Reported(a), Fallback(), proxyRetries, fastUsed, from) == None
      requires armedAt.Some? <==> Fallback() || TurnsDown(cfg, a.outcome, Reported(a))
      ensures Ended(a)
    {
      SameChoice(cfg, a, Reported(a), Fallback(), proxyRetries, fastUsed, from, fallbackIndex);
    }

    /** The attempt is settled, and nothing was used up: the list at most past the original model. */
    ghost function Stays(a: Attempt, used: nat, fast: bool, from: nat): Promise
      requires from <= |cfg.fallbacks|
      reads this`fallbackIndex, this`sent, this`at, this`armedAt, this`model, this`place, this`heldRefusal, this`heldSafeguard,
        this`fastUsed, this`proxyRetries, this`reason, this`last
    {
      Promise(Settled(a) && proxyRetries == used && fastUsed == fast && NextIndex(cfg, fallbackIndex) == NextIndex(cfg, from))
    }

    /** The transport failed, and only a candidate is left. */
    method AdvanceOnly(a: Attempt) returns (again: bool)
      requires Plain(a) && a.outcome.TransportError?
      requires last == a.outcome.fail || (last == a.gone && !a.sleeps && armedAt.None?)
      modifies this`reason, this`fallbackIndex, this`model, this`place
      ensures again ==> Ready() && Left() < old(Left()) && reason == Swap
      ensures !again ==> Stays(a, proxyRetries, fastUsed, old(fallbackIndex)).kept
      ensures again <==> MovesOn(cfg, a, a.outcome.fail, armedAt.Some?, old(fallbackIndex))
    {
      again := AdvanceFallback(a);
    }

    /** The transport failed and no hidden retry is left: the fast retry, or a candidate. */
    method FastOrAdvance(a: Attempt) returns (again: bool)
      requires Plain(a) && a.outcome.TransportError?
      requires last == a.outcome.fail || (last == a.gone && !a.sleeps && armedAt.None? && cfg.localRetries > 0)
      modifies this`proxyRetries, this`fastUsed, this`reason, this`last, this`fallbackIndex, this`model, this`place
      ensures again ==> Ready() && Left() < old(Left())
      ensures !again ==> Stays(a, old(proxyRetries), old(fastUsed), old(fallbackIndex)).kept
      ensures (if again then Some(reason) else None)
        == FastOrSwap(cfg, a, a.outcome.fail, armedAt.Some?, old(fastUsed), old(fallbackIndex))
    {
      ActiveIsArmed();
      if (Active() || cfg.localRetries == 0) && FastOpen(cfg, a, last, fastUsed) {
        again := FastHere(a);
      } else {
        again := AdvanceOnly(a);
      }
    }

    /** The fast retry of an attempt that is no refusal. */
    method FastHere(a: Attempt) returns (again: bool)
      requires Plain(a) && FastOpen(cfg, a, last, fastUsed)
      modifies this`proxyRetries, this`fastUsed, this`reason, this`last
      ensures again <==> a.sleeps
      ensures again ==> Ready() && Left() < old(Left()) && reason == Fast
      ensures !again ==> Stays(a, old(proxyRetries), old(fastUsed), fallbackIndex).kept
    {
      again := TakeFast(a);
      if !again {
        Settles(a);
      }
    }

    method OnTransportError(a: Attempt) returns (again: bool)
      requires Plain(a) && a.outcome.TransportError? && last == a.outcome.fail
      modifies this`proxyRetries, this`fastUsed, this`reason, this`last, this`fallbackIndex, this`model, this`place
      ensures again ==> Ready() && Left() < old(Left())
      ensures !again ==> Stays(a, old(proxyRetries), old(fastUsed), old(fallbackIndex)).kept
      ensures (if again then Some(reason) else None)
        == TransportChoice(cfg, a, a.outcome.fail, armedAt.Some?, old(proxyRetries), old(fastUsed), old(fallbackIndex))
    {
      again := TryLocalRetry(a);
      if !again {
        again := FastOrAdvance(a);
      }
    }

    /** An error status, and only the fast retry is left. */
    method FastOnly(a: Attempt) returns (again: bool)
      requires Plain(a) && a.outcome.HttpError?
      requires last == Reported(a) || (last == a.gone && !a.sleeps && cfg.localRetries > 0)
      modifies this`proxyRetries, this`fastUsed, this`reason, this`last
      ensures again ==> Ready() && Left() < old(Left()) && reason == Fast
      ensures !again ==> Stays(a, old(proxyRetries), old(fastUsed), fallbackIndex).kept
      ensures again <==> armedAt.None? && cfg.localRetries == 0 && Reported(a).retryAfter == 0
                         && FastOpen(cfg, a, Reported(a), old(fastUsed)) && a.sleeps
    {
      ActiveIsArmed();
      again := false;
      if !Active() && cfg.localRetries == 0 && last.retryAfter == 0 && FastOpen(cfg, a, last, fastUsed) {
        again := FastHere(a);
      } else {
        Settles(a);
      }
    }

    /** An error status that is no refusal, with no candidate to send. */
    method LocalOrFast(a: Attempt) returns (again: bool)
      requires Plain(a) && a.outcome.HttpError? && last == Reported(a)
      modifies this`proxyRetries, this`fastUsed, this`reason, this`last
      ensures again ==> Ready() && Left() < old(Left())
      ensures !again ==> Stays(a, old(proxyRetries), old(fastUsed), fallbackIndex).kept
      ensures (if again then Some(reason) else None)
        == RepeatChoice(cfg, a, Reported(a), armedAt.Some?, old(proxyRetries), old(fastUsed))
    {
      ActiveIsArmed();
      again := TryLocalRetry(a);
      if !again {
        again := FastOnly(a);
      }
    }

    /** A candidate after an attempt that is no refusal. */
    method AdvancePlain(a: Attempt) returns (again: bool)
      requires Plain(a) && last == Reported(a)
      modifies this`fallbackIndex, this`model, this`reason, this`place
      ensures again ==> Ready() && Left() < old(Left()) && reason == Swap
      ensures !again ==> Plain(a) && Left() <= old(Left()) && NextIndex(cfg, fallbackIndex) == NextIndex(cfg, old(fallbackIndex))
      ensures again <==> MovesOn(cfg, a, Reported(a), armedAt.Some?, old(fallbackIndex))
    {
      again := AdvanceFallback(a);
    }

    /** An error status that is no refusal: a candidate first. */
    method OnHttpError(a: Attempt) returns (again: bool)
      requires Plain(a) && a.outcome.HttpError? && last == Reported(a) && !TurnsDown(cfg, a.outcome, last)
      modifies this`proxyRetries, this`fastUsed, this`reason, this`last, this`fallbackIndex, this`model, this`place
      ensures again ==> Ready() && Left() < old(Left())
      ensures !again ==> Stays(a, old(proxyRetries), old(fastUsed), old(fallbackIndex)).kept
      ensures (if again then Some(reason) else None)
        == ErrorChoice(cfg, a, Reported(a), armedAt.Some?, old(proxyRetries), old(fastUsed), old(fallbackIndex))
    {
      again := AdvancePlain(a);
      if !again {
        again := LocalOrFast(a);
      }
    }

    /** A failed attempt that is neither a refusal nor committed: a candidate, or a hidden retry. */
    method AdvanceOrRetry(a: Attempt) returns (again: bool)
      requires Plain(a) && (a.outcome.NonSseUnread? || a.outcome.Failed?) && last == Reported(a) && !TurnsDown(cfg, a.outcome, last)
      modifies this`proxyRetries, this`reason, this`last, this`fallbackIndex, this`model, this`place
      ensures again ==> Ready() && Left() < old(Left())
      ensures !again ==> Stays(a, old(proxyRetries), fastUsed, old(fallbackIndex)).kept
      ensures (if again then Some(reason) else None)
        == PlainChoice(cfg, a, Reported(a), armedAt.Some?, old(proxyRetries), old(fallbackIndex))
    {
      again := AdvancePlain(a);
      if !again {
        again := TryLocalRetry(a);
      }
      if !again {
        Settles(a);
      }
    }

    /** With an answer held, a candidate or the end. */
    method SwapHeld(a: Attempt) returns (again: bool)
      requires Answered() && armedAt.Some? && a == attempts(|sent| - 1) && !Commits(cfg, a.outcome) && last == Reported(a)
      modifies this`fallbackIndex, this`model, this`reason, this`place
      ensures again ==> Ready() && Left() < old(Left())
      ensures !again ==> Settled(a) && NextIndex(cfg, fallbackIndex) == NextIndex(cfg, old(fallbackIndex))
      ensures (if again then Some(reason) else None) == (if NoCandidate(cfg, a, old(fallbackIndex)) then None else Some(Swap))
    {
      again := SwapToFallback(a);
      if !again {
        Settles(a);
      }
    }

    /** This attempt refused; a candidate is next. */
    method OnRefusal(a: Attempt) returns (again: bool)
      requires Current(a) && Intercepts(cfg) && !Commits(cfg, a.outcome) && TurnsDown(cfg, a.outcome, last)
      requires last == Verdict(cfg, a.outcome, armedAt.Some?)
      modifies this`heldRefusal, this`heldSafeguard, this`armedAt, this`fallbackIndex, this`model, this`reason, this`place
      ensures again ==> Ready() && Left() < old(Left())
      ensures !again ==> Settled(a) && armedAt.Some? && NextIndex(cfg, fallbackIndex) == NextIndex(cfg, old(fallbackIndex))
      ensures Fallback() <==> old(armedAt.Some?)
      ensures (if again then Some(reason) else None) == (if NoCandidate(cfg, a, old(fallbackIndex)) then None else Some(Swap))
    {
      Hold(a);
      again := SwapHeld(a);
    }

    lemma NotRefused(a: Attempt)
      requires Current(a) && !Commits(cfg, a.outcome) && !TurnsDown(cfg, a.outcome, Verdict(cfg, a.outcome, armedAt.Some?))
      ensures Plain(a) && (armedAt.Some? <==> Fallback())
    {
    }

    /** A refusal, to its end. */
    method TurnDown(a: Attempt) returns (again: bool)
      requires Current(a) && Intercepts(cfg) && !Commits(cfg, a.outcome) && TurnsDown(cfg, a.outcome, last)
      requires last == Verdict(cfg, a.outcome, armedAt.Some?)
      modifies this`proxyRetries, this`fastUsed, this`reason, this`last, this`fallbackIndex, this`model, this`place,
        this`heldRefusal, this`heldSafeguard, this`armedAt
      ensures again ==> Ready() && Left() < old(Left())
      ensures !again ==> Ended(a)
      ensures (if again then Some(reason) else None) == old(Due(a))
    {
      ghost var from := fallbackIndex;
      again := OnRefusal(a);
      if !again {
        Closes(a, from);
      }
    }

    /** An error status that is no refusal, to its end. */
    method OtherError(a: Attempt) returns (again: bool)
      requires Current(a) && a.outcome.HttpError? && last == Verdict(cfg, a.outcome, armedAt.Some?) && !TurnsDown(cfg, a.outcome, last)
      modifies this`proxyRetries, this`fastUsed, this`reason, this`last, this`fallbackIndex, this`model, this`place,
        this`heldRefusal, this`heldSafeguard, this`armedAt
      ensures again ==> Ready() && Left() < old(Left())
      ensures !again ==> Ended(a)
      ensures (if again then Some(reason) else None) == old(Due(a))
    {
      ghost var from := fallbackIndex;
      NotRefused(a);
      again := OnHttpError(a);
      if !again {
        Closes(a, from);
      }
    }

    /** A failure without an answer of any kind, to its end. */
    method OtherFailure(a: Attempt) returns (again: bool)
      requires Current(a) && (a.outcome.NonSseUnread? || a.outcome.Failed?) && !Commits(cfg, a.outcome)
      requires last == Verdict(cfg, a.outcome, armedAt.Some?) && !TurnsDown(cfg, a.outcome, last)
      modifies this`proxyRetries, this`fastUsed, this`reason, this`last, this`fallbackIndex, this`model, this`place,
        this`heldRefusal, this`heldSafeguard, this`armedAt
      ensures again ==> Ready() && Left() < old(Left())
      ensures !again ==> Ended(a)
      ensures (if again then Some(reason) else None) == old(Due(a))
    {
      ghost var from := fallbackIndex;
      NotRefused(a);
      again := AdvanceOrRetry(a);
      if !again {
        Closes(a, from);
      }
    }

    /** An error status, read in the light of an earlier refusal. */
    method OnErrorStatus(a: Attempt) returns (again: bool)
      requires Current(a) && a.outcome.HttpError?
      modifies this`proxyRetries, this`fastUsed, this`reason, this`last, this`fallbackIndex, this`model, this`place,
        this`heldRefusal, this`heldSafeguard, this`armedAt
      ensures again ==> Ready() && Left() < old(Left())
      ensures !again ==> Ended(a)
      ensures (if again then Some(reason) else None) == old(Due(a))
    {
      last := if Active() then cfg.rules.inFallback(a.outcome.fail, a.outcome.readOk) else a.outcome.fail;
      if Intercepts(cfg) && cfg.rules.safeguard(last) {
        again := TurnDown(a);
      } else {
        again := OtherError(a);
      }
    }

    /** A stream that failed before any byte of it was committed. */
    method OnBrokenStream(a: Attempt) returns (again: bool)
      requires Current(a) && a.outcome.Failed? && !a.outcome.wrote
      modifies this`proxyRetries, this`fastUsed, this`reason, this`last, this`fallbackIndex, this`model, this`place,
        this`heldRefusal, this`heldSafeguard, this`armedAt
      ensures again ==> Ready() && Left() < old(Left())
      ensures !again ==> Ended(a)
      ensures (if again then Some(reason) else None) == old(Due(a))
    {
      last := a.outcome.fail;
      if Intercepts(cfg) && cfg.rules.safeguard(last) {
        again := TurnDown(a);
      } else {
        again := OtherFailure(a);
      }
    }

    method OnNoAnswer(a: Attempt) returns (again: bool)
      requires Current(a) && a.outcome.TransportError?
      modifies this`proxyRetries, this`fastUsed, this`reason, this`last, this`fallbackIndex, this`model, this`place,
        this`heldRefusal, this`heldSafeguard, this`armedAt
      ensures again ==> Ready() && Left() < old(Left())
      ensures !again ==> Ended(a)
      ensures (if again then Some(reason) else None) == old(Due(a))
    {
      ghost var from := fallbackIndex;
      last := a.outcome.fail;
      NotRefused(a);
      again := OnTransportError(a);
      if !again {
        Closes(a, from);
      }
    }

    /** A plain response that could not be read. */
    method OnUnread(a: Attempt) returns (again: bool)
      requires Current(a) && a.outcome.NonSseUnread?
      modifies this`proxyRetries, this`fastUsed, this`reason, this`last, this`fallbackIndex, this`model, this`place,
        this`heldRefusal, this`heldSafeguard, this`armedAt
      ensures again ==> Ready() && Left() < old(Left())
      ensures !again ==> Ended(a)
      ensures (if again then Some(reason) else None) == old(Due(a))
    {
      last := a.outcome.fail;
      again := OtherFailure(a);
    }

    /** A complete stream that refuses. */
    method OnRefusedAnswer(a: Attempt) returns (again: bool)
      requires Current(a) && a.outcome.Complete? && !Commits(cfg, a.outcome)
      modifies this`proxyRetries, this`fastUsed, this`reason, this`last, this`fallbackIndex, this`model, this`place,
        this`heldRefusal, this`heldSafeguard, this`armedAt
      ensures again ==> Ready() && Left() < old(Left())
      ensures !again ==> Ended(a)
      ensures (if again then Some(reason) else None) == old(Due(a))
    {
      last := cfg.rules.refused;
      again := TurnDown(a);
    }

    /** An attempt that committed nothing. */
    method OnUncommitted(a: Attempt) returns (again: bool)
      requires Current(a) && !Commits(cfg, a.outcome)
      modifies this`proxyRetries, this`fastUsed, this`reason, this`last, this`fallbackIndex, this`model, this`place,
        this`heldRefusal, this`heldSafeguard, this`armedAt
      ensures again ==> Ready() && Left() < old(Left())
      ensures !again ==> Ended(a)
      ensures (if again then Some(reason) else None) == old(Due(a))
    {
      match a.outcome {
        case TransportError(_) =>
          again := OnNoAnswer(a);
        case HttpError(_, _) =>
          again := OnErrorStatus(a);
        case NonSseUnread(_) =>
          again := OnUnread(a);
        case Complete(_) =>
          again := OnRefusedAnswer(a);
        case Failed(_, _) =>
          again := OnBrokenStream(a);
      }
    }

    /** What one request is promised, once `res` is its result. */
    ghost function Promised(ended: Option<Failure>, present: bool, res: Result): Promise
      reads this
    {
      Promise(
      && 0 < |sent| <= 2 + HiddenRetries(cfg) + |cfg.fallbacks|
      && fallbackIndex <= |cfg.fallbacks| && InOrder(cfg, sent, at, armedAt, fallbackIndex)
      && NoneSkipped(cfg, at, -1, fallbackIndex)
      && NoneCommitted(cfg, attempts, |sent| - 1) && FirstRefusal(cfg, attempts, armedAt, |sent|)
      && var a := attempts(|sent| - 1);
      if Commits(cfg, a.outcome) then res == Committed(a.outcome)
      else
        && var verdict := Verdict(cfg, a.outcome, Fallback());
        && Exhausted(cfg, a, verdict, armedAt.Some?, Repeats(sent), fastUsed, fallbackIndex) && (fastUsed <==> !NoFast(sent))
        && (if ended.Some? then last == ended.value else last == verdict || (last == a.gone && !a.sleeps))
        && res == (
          if armedAt.None? then Surfaced(last, last.transient && cfg.budgetLeft)
          else if present && !cfg.rules.action(last).Stop? then FirstAnswer(attempts, armedAt.value)
          else Surfaced(last, false)))
    }

    ghost predicate Concluded(ended: Option<Failure>, present: bool, res: Result)
      reads this
    {
      Promised(ended, present, res).kept
    }

    lemma EndedExhausted(a: Attempt)
      requires Ended(a)
      ensures Exhausted(cfg, a, Reported(a), armedAt.Some?, proxyRetries, fastUsed, fallbackIndex)
    {
      NoChoice(cfg, a, Reported(a), Fallback(), proxyRetries, fastUsed, fallbackIndex);
    }

    /** What the client gets when no attempt answered. `ended` is the verdict on a request context that
        is over by now; `present` says whether the client is still there. */
    method Finish(ended: Option<Failure>, present: bool) returns (res: Result)
      requires sent != [] && Ended(attempts(|sent| - 1))
      modifies this`last
      ensures Concluded(ended, present, res)
    {
      EndedExhausted(attempts(|sent| - 1));
      if ended.Some? {
        last := ended.value;
      }
      var canRetry := !Active() && last.transient && cfg.budgetLeft;
      if Active() && present && !cfg.rules.action(last).Stop? {
        if heldRefusal.Some? {
          return HeldAnswer(heldRefusal.value);
        }
        return Surfaced(heldSafeguard.value, canRetry);
      }
      return Surfaced(last, canRetry);
    }

    lemma CommittedConcludes(ended: Option<Failure>, present: bool)
      requires sent != [] && Attempted(|sent| - 1) && Commits(cfg, attempts(|sent| - 1).outcome)
      ensures Concluded(ended, present, Committed(attempts(|sent| - 1).outcome))
    {
      assert !Refuses(cfg, attempts(|sent| - 1).outcome);
    }

    /** Send the current model, and decide whether to go on. */
    method SendOnce(ended: Option<Failure>, present: bool) returns (res: Option<Result>)
      requires Ready()
      modifies this
      ensures res.None? ==> Ready() && Left() < old(Left())
      ensures res.Some? ==> Concluded(ended, present, res.value)
      ensures sent == old(sent) + [Sent(old(model), old(reason))] && at == old(at) + [old(place)]
      ensures res.None? ==> Some(reason) == old(DueAfter(attempts(|sent|)))
    {
      var a := attempts(|sent|);
      Send();
      assert Current(a);
      res := Answer(a, ended, present);
    }

    /** What the attempt that was sent comes to. */
    method Answer(a: Attempt, ended: Option<Failure>, present: bool) returns (res: Option<Result>)
      requires Current(a)
      modifies this`proxyRetries, this`fastUsed, this`reason, this`last, this`fallbackIndex, this`model, this`place,
        this`heldRefusal, this`heldSafeguard, this`armedAt
      ensures res.None? ==> Ready() && Left() < old(Left()) && Some(reason) == old(DueAfter(a))
      ensures res.Some? ==> Concluded(ended, present, res.value)
    {
      if Commits(cfg, a.outcome) {
        CommittedConcludes(ended, present);
        res := Some(Committed(a.outcome));
      } else {
        res := GoOnOrFinish(a, ended, present);
      }
    }

    /** After an attempt that committed nothing. */
    method GoOnOrFinish(a: Attempt, ended: Option<Failure>, present: bool) returns (res: Option<Result>)
      requires Current(a) && !Commits(cfg, a.outcome)
      modifies this`proxyRetries, this`fastUsed, this`reason, this`last, this`fallbackIndex, this`model, this`place,
        this`heldRefusal, this`heldSafeguard, this`armedAt
      ensures res.None? ==> Ready() && Left() < old(Left()) && Some(reason) == old(Due(a))
      ensures res.Some? ==> Concluded(ended, present, res.value)
    {
      var again := OnUncommitted(a);
      if again {
        res := None;
      } else {
        var r := Finish(ended, present);
        res := Some(r);
      }
    }

    /** The index and the place of the current model say the same of the list. */
    lemma PlaceIsIndex()
      requires Ready()
      ensures UsedUpTo(place) <= fallbackIndex <= |cfg.fallbacks| && NextIndex(cfg, UsedUpTo(place)) == NextIndex(cfg, fallbackIndex)
    {
      assert forall i | 0 <= i < |at| && at[i] >= 0 :: at[i] <= place;
      OnlyOriginal(cfg, UsedUpTo(place), fallbackIndex);
    }

    /** The next decision depends on the run alone. */
    lemma DueFits(sent2: seq<Sent>, a: Attempt)
      requires Ready() && sent2 == sent + [Sent(model, reason)] && !Commits(cfg, a.outcome)
      ensures UsedUpTo(place) <= |cfg.fallbacks|
      ensures DueAfter(a) == Choice(cfg, a, Verdict(cfg, a.outcome, armedAt.Some?), armedAt.Some?, Repeats(sent2), !NoFast(sent2), UsedUpTo(place))
    {
      PlaceIsIndex();
      RepeatsPush(sent, Sent(model, reason));
      FastPush(sent, Sent(model, reason));
      SameChoice(cfg, a, Verdict(cfg, a.outcome, armedAt.Some?), armedAt.Some?, Repeats(sent2), !NoFast(sent2), UsedUpTo(place), fallbackIndex);
    }

    /** The run so far followed the table, and the next attempt is due by it. */
    ghost function Track(sent: seq<Sent>, at: seq<int>, armed: Option<nat>, reason: Reason): Promise {
      Promise(
        && Followed(cfg, attempts, sent, at, armed)
        && (sent != [] ==> StepFits(cfg, attempts, sent, at, armed, |sent|, reason)))
    }

    ghost predicate OnTrack()
      reads this`sent, this`at, this`armedAt, this`reason
    {
      Track(sent, at, armedAt, reason).kept
    }

    lemma TrackOn(was: seq<Sent>, wasAt: seq<int>, armed: Option<nat>, s: Sent, here: int, armed2: Option<nat>, next: Reason)
      requires Track(was, wasAt, armed, s.reason).kept && UsedUpTo(here) <= |cfg.fallbacks|
      requires FirstRefusal(cfg, attempts, armed, |was|) && FirstRefusal(cfg, attempts, armed2, |was| + 1)
      requires !Commits(cfg, attempts(|was|).outcome)
      requires Choice(cfg, attempts(|was|), Verdict(cfg, attempts(|was|).outcome, armed.Some?), armed.Some?,
                      Repeats(was + [s]), !NoFast(was + [s]), UsedUpTo(here)) == Some(next)
      ensures Track(was + [s], wasAt + [here], armed2, next).kept
    {
      RoundFollows(cfg, attempts, was, wasAt, armed, s, here, armed2);
      RoundFits(cfg, attempts, was, wasAt, armed, s, here, armed2, next);
    }

    /** The whole run followed the table. */
    ghost function Trace(sent: seq<Sent>, at: seq<int>, armed: Option<nat>): Promise {
      Promise(Followed(cfg, attempts, sent, at, armed))
    }

    lemma TrackEnds(was: seq<Sent>, wasAt: seq<int>, armed: Option<nat>, s: Sent, here: int, armed2: Option<nat>)
      requires Track(was, wasAt, armed, s.reason).kept
      requires FirstRefusal(cfg, attempts, armed, |was|) && FirstRefusal(cfg, attempts, armed2, |was| + 1)
      ensures Trace(was + [s], wasAt + [here], armed2).kept
    {
      RoundFollows(cfg, attempts, was, wasAt, armed, s, here, armed2);
    }

    lemma ReadyKnows()
      requires Ready()
      ensures FirstRefusal(cfg, attempts, armedAt, |sent|) && |sent| == |at|
    {
    }

    lemma ConcludedKnows(ended: Option<Failure>, present: bool, res: Result)
      requires Concluded(ended, present, res)
      ensures FirstRefusal(cfg, attempts, armedAt, |sent|)
    {
    }

    /** The decision that is due after the next attempt, by the table; None if that attempt commits. */
    ghost function DueByTable(): Option<Reason>
      requires UsedUpTo(place) <= |cfg.fallbacks|
      reads this`sent, this`armedAt, this`model, this`reason, this`place
    {
      var a, sent2 := attempts(|sent|), sent + [Sent(model, reason)];
      if Commits(cfg, a.outcome) then None
      else Choice(cfg, a, Verdict(cfg, a.outcome, armedAt.Some?), armedAt.Some?, Repeats(sent2), !NoFast(sent2), UsedUpTo(place))
    }

    lemma DueIsByTable()
      requires Ready()
      ensures UsedUpTo(place) <= |cfg.fallbacks| && fallbackIndex <= |cfg.fallbacks| && DueAfter(attempts(|sent|)) == DueByTable()
    {
      PlaceIsIndex();
      if !Commits(cfg, attempts(|sent|).outcome) {
        DueFits(sent + [Sent(model, reason)], attempts(|sent|));
      }
    }

    /** One attempt, sent for the reason that was due, and the next decision. */
    method SendDue(ended: Option<Failure>, present: bool) returns (res: Option<Result>)
      requires Ready()
      modifies this
      ensures UsedUpTo(old(place)) <= |cfg.fallbacks|
      ensures res.None? ==> Ready() && Left() < old(Left()) && Some(reason) == old(DueByTable())
      ensures res.Some? ==> Concluded(ended, present, res.value)
      ensures sent == old(sent) + [Sent(old(model), old(reason))] && at == old(at) + [old(place)]
      ensures FirstRefusal(cfg, attempts, armedAt, |sent|)
    {
      DueIsByTable();
      res := SendOnce(ended, present);
      if res.None? {
        ReadyKnows();
      } else {
        ConcludedKnows(ended, present, res.value);
      }
    }

    /** One attempt, and the table. */
    method Round(ended: Option<Failure>, present: bool) returns (res: Option<Result>)
      requires Ready() && OnTrack()
      modifies this
      ensures res.None? ==> Ready() && Left() < old(Left()) && OnTrack()
      ensures res.Some? ==> Concluded(ended, present, res.value) && Trace(sent, at, armedAt).kept
    {
      ghost var s, was, wasAt := Sent(model, reason), sent, at;
      ReadyKnows();
      res := SendDue(ended, present);
      if res.None? {
        TrackOn(was, wasAt, old(armedAt), s, old(place), armedAt, reason);
      } else {
        TrackEnds(was, wasAt, old(armedAt), s, old(place), armedAt);
      }
    }

    /** One whole request. */
    method Handle(ended: Option<Failure>, present: bool) returns (res: Result)
      requires Ready() && sent == []
      modifies this
      ensures Concluded(ended, present, res) && Followed(cfg, attempts, sent, at, armedAt)
    {
      while true
        invariant Ready() && OnTrack()
        decreases Left()
      {
        var r := Round(ended, present);
        if r.Some? {
          return r.value;
        }
      }
    }
  }
}
