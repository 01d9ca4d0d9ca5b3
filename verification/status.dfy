/** The gRPC status carried by trailers, queues and completions (include/rpcpio/status.h). */
module Statuses {
  import opened Bytes

  type StatusCode = c: int | 0 <= c <= 16

  const OK: StatusCode := 0
  const CANCELLED: StatusCode := 1
  const UNKNOWN: StatusCode := 2
  const INVALID_ARGUMENT: StatusCode := 3
  const DEADLINE_EXCEEDED: StatusCode := 4
  const PERMISSION_DENIED: StatusCode := 7
  const RESOURCE_EXHAUSTED: StatusCode := 8
  const UNIMPLEMENTED: StatusCode := 12
  const INTERNAL: StatusCode := 13
  const UNAVAILABLE: StatusCode := 14
  const UNAUTHENTICATED: StatusCode := 16

  datatype Status = Status(code: StatusCode, message: bytes, details: bytes) {
    predicate Ok() {
      code == OK
    }
  }

  const OK_STATUS := Status(OK, [], [])

  /** A status made the way most call sites make one: a code, a text, no details. */
  function Failed(code: StatusCode, message: string): Status {
    Status(code, Text(message), [])
  }

  /** A status that reports a failure. */
  type Failure = s: Status | !s.Ok() witness Status(CANCELLED, [], [])
}
