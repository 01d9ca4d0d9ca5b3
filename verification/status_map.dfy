/** The statuses that HTTP and HTTP/2 outcomes stand for (src/protocol/status_map.cc, include/rpcpio/status.h). */
module StatusMap {
  import opened Statuses
  import Timeout

  function ResetCode(error: nat): (c: StatusCode)
    ensures c != OK
  {
    match error
    case 0x6 => RESOURCE_EXHAUSTED
    case 0x7 => UNAVAILABLE
    case 0x8 => CANCELLED
    case 0x9 => RESOURCE_EXHAUSTED
    case 0xA => RESOURCE_EXHAUSTED
    case 0xB => RESOURCE_EXHAUSTED
    case 0xD => UNIMPLEMENTED
    case _ => INTERNAL
  }

  /** A stream that closed before its trailers, by its HTTP/2 error code. */
  function ClosedEarly(error: nat): Failure {
    if error == 0 then Failed(UNKNOWN, "missing grpc-status")
    else Failed(ResetCode(error), "RST_STREAM error_code=" + Timeout.Text(error))
  }

  function HttpCode(http: nat): (c: StatusCode)
    ensures c != OK
  {
    match http
    case 400 => INTERNAL
    case 401 => UNAUTHENTICATED
    case 403 => PERMISSION_DENIED
    case 404 => UNIMPLEMENTED
    case 429 => UNAVAILABLE
    case 502 => UNAVAILABLE
    case 503 => UNAVAILABLE
    case 504 => UNAVAILABLE
    case _ => UNKNOWN
  }

  /** A response that is not gRPC or not 200, by its HTTP status. */
  function FromHttp(http: nat): Failure {
    Failed(HttpCode(http), "HTTP " + Timeout.Text(http))
  }
}
