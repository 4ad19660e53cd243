/** How the retry loop reads failures once a fallback chain has started (main.go, classify.go). */
module FailureRules {
  import opened Common
  import opened Failures
  import opened RetryLoop

  /** Text matches on an error message, as decided by the program's phrase lists. */
  datatype Phrases = Phrases(safeguard: Bytes -> bool, modelNotFound: Bytes -> bool)

  function OrigStatus(f: Failure): int {
    if f.origStatus != 0 then f.origStatus else if f.status == 0 then 502 else f.status
  }

  function OrigType(f: Failure): Bytes {
    if f.origType != "" then f.origType else f.atype
  }

  predicate AccountError(f: Failure) {
    OrigStatus(f) in {401, 402, 403} || OrigType(f) in {"authentication_error", "billing_error", "permission_error"}
  }

  predicate Safeguard(p: Phrases, f: Failure) {
    !f.transient && !AccountError(f) && p.safeguard(f.message)
  }

  function Action(p: Phrases, f: Failure): Disposition {
    if AccountError(f) then Stop
    else if f.code == "refusal_fallback" || f.code == "sse_stream_disconnect" || Safeguard(p, f) then Next
    else if OrigType(f) == "rate_limit_error" then Original
    else if OrigStatus(f) == 404 || OrigType(f) == "not_found_error" || f.origCode == "model_not_found"
      || p.modelNotFound(f.message) then Next
    else if OrigType(f) == "invalid_request_error" || OrigType(f) == "request_too_large" || OrigStatus(f) == 413 then Stop
    else if OrigStatus(f) == 429 || f.code == "spool_error" then Original
    else if f.transient then Next
    else Stop
  }

  /** The client's credentials, or its account. */
  predicate BadAccount(f: Failure) {
    || OrigStatus(f) == 401 || OrigStatus(f) == 402 || OrigStatus(f) == 403
    || OrigType(f) == "authentication_error" || OrigType(f) == "billing_error" || OrigType(f) == "permission_error"
  }

  /** The model itself: it refused, it broke off, or there is no such model. */
  predicate ModelFailed(p: Phrases, f: Failure) {
    f.code == "refusal_fallback" || f.code == "sse_stream_disconnect" || (!f.transient && p.safeguard(f.message))
  }

  predicate NoSuchModel(p: Phrases, f: Failure) {
    OrigStatus(f) == 404 || OrigType(f) == "not_found_error" || f.origCode == "model_not_found" || p.modelNotFound(f.message)
  }

  /** The request: no model can take it. */
  predicate BadRequest(f: Failure) {
    OrigType(f) == "invalid_request_error" || OrigType(f) == "request_too_large" || OrigStatus(f) == 413
  }

  /** A limit on the account's rate, or the proxy's own storage: no other model helps. */
  predicate SharedLimit(f: Failure) {
    OrigStatus(f) == 429 || f.code == "spool_error"
  }

  /** The next model is tried when the last one failed, or does not exist, or something failed that may clear
      and that is neither the request nor a shared limit; never with a bad account. The original answer is
      given for a rate limit, or a shared limit where neither model nor request is at fault. */
  lemma ActionIs(p: Phrases, f: Failure)
    ensures var rate := OrigType(f) == "rate_limit_error";
      && (Action(p, f).Next? <==>
            !BadAccount(f) && (ModelFailed(p, f) || (!rate && (NoSuchModel(p, f) || (!BadRequest(f) && !SharedLimit(f) && f.transient)))))
      && (Action(p, f).Original? <==>
            !BadAccount(f) && !ModelFailed(p, f) && (rate || (!NoSuchModel(p, f) && !BadRequest(f) && SharedLimit(f))))
    ensures Safeguard(p, f) <==> !BadAccount(f) && !f.transient && p.safeguard(f.message)
  {
  }

  /** A terminal Claude error stays actionable during fallback even if a hint says otherwise. */
  function InFallback(p: Phrases, f: Failure, readOk: bool): Failure {
    if readOk && f.transient && Action(p, f) == Stop then
      f.(transient := false, fastRetry := false, status := f.origStatus, atype := OrigType(f))
    else f
  }

  function Claude(p: Phrases): Rules {
    Rules((f: Failure) => Safeguard(p, f), (f: Failure) => Action(p, f),
      (f: Failure, ok: bool) => InFallback(p, f, ok), REFUSAL_FALLBACK)
  }

  /** An HTTP error that the rules make terminal ends the chain and keeps its type, unless its text
      turns out to be a safeguard refusal, which moves on. Every other one is left as it is. */
  lemma ReadInFallback(p: Phrases, f: Failure, readOk: bool)
    requires f.origStatus != 0
    ensures var g := InFallback(p, f, readOk);
      && OrigType(g) == OrigType(f) && OrigStatus(g) == OrigStatus(f)
      && (Action(p, g) == Action(p, f) || (Action(p, f).Stop? && Action(p, g).Next? && Safeguard(p, g)))
      && (readOk && g.transient ==> !Action(p, g).Stop?)
      && (!readOk || !f.transient ==> g == f)
  {
    var g := InFallback(p, f, readOk);
    if g != f {
      assert AccountError(g) == AccountError(f);
    }
  }

  /** The last attempt was read to its end as an HTTP error, after an earlier one had refused, and no
      wait was cut short. */
  ghost predicate EndsInHttpError(h: Handler, f: Failure)
    reads h
  {
    && h.sent != [] && h.armedAt.Some? && h.Fallback()
    && var a := h.attempts(|h.sent| - 1);
       a.outcome == HttpError(f, true) && a.sleeps && f.origStatus != 0
  }

  /** A client that is still there then gets the answer that was held, unless the error is terminal in
      itself and no safeguard refusal; in that case it gets the error, as a final one of the
      upstream's own type and status. It never gets a transient error, or an invitation to retry. */
  lemma ClaudeAnswer(h: Handler, p: Phrases, f: Failure, res: Result)
    requires h.cfg.rules == Claude(p) && h.Concluded(None, true, res) && EndsInHttpError(h, f)
    ensures var g := InFallback(p, f, true);
      if Action(p, f).Stop? && !Safeguard(p, g) then
        res == Surfaced(g, false) && !g.transient && OrigType(g) == OrigType(f) && OrigStatus(g) == OrigStatus(f)
      else res == FirstAnswer(h.attempts, h.armedAt.value)
    ensures res.Surfaced? ==> !res.fail.transient && !res.canRetry
  {
    ReadInFallback(p, f, true);
    assert h.last == InFallback(p, f, true);
  }

  /** One request under these rules. */
  method HandleClaude(h: Handler, p: Phrases) returns (res: Result)
    requires h.cfg.rules == Claude(p) && h.Ready() && h.sent == []
    modifies h
    ensures h.Concluded(None, true, res)
    ensures (exists f :: EndsInHttpError(h, f)) && res.Surfaced? ==> !res.fail.transient && !res.canRetry
  {
    res := h.Handle(None, true);
    if f :| EndsInHttpError(h, f) {
      ClaudeAnswer(h, p, f, res);
    }
  }
}
