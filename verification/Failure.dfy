/** The failure vocabulary shared by the stream engine and the retry loop (classify.go). */
module Failures {
  import opened Common

  datatype Failure = Failure(
    transient: bool, fastRetry: bool, delivered: bool, status: int, origStatus: int,
    atype: Bytes, code: Bytes, origType: Bytes, origCode: Bytes, message: Bytes, retryAfter: int)

  function Fault(transient: bool, status: int, atype: Bytes, code: Bytes): Failure {
    Failure(transient, false, false, status, 0, atype, code, "", "", "", 0)
  }

  /** A classification leaves it to the protocol whether the client is told. */
  function Untold(f: Failure): Failure {
    f.(delivered := false)
  }

  const MALFORMED := Fault(true, 502, "api_error", "malformed_sse")
  const RESPONSE_TOO_LARGE := Fault(false, 502, "api_error", "response_too_large")
  const SPOOL_ERROR := Fault(true, 502, "api_error", "spool_error")
  const REPLAY_FAILED := Fault(true, 502, "api_error", "response_replay_failed")
  const UPSTREAM_IDLE := Fault(true, 504, "timeout_error", "upstream_idle")
  const DEADLINE := Fault(true, 504, "timeout_error", "deadline")
  const CLIENT_GONE := Fault(false, 499, "api_error", "client_gone")
  const TRUNCATED_STREAM := Fault(true, 502, "api_error", "truncated_stream")
  const STREAM_READ_ERROR := Fault(true, 502, "api_error", "stream_read_error")
  const INVALID_COMPLETED := Fault(true, 502, "api_error", "responses_invalid_completed")
  const REFUSAL_FALLBACK := Fault(false, 502, "api_error", "refusal_fallback")
}
