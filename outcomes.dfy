/** How an operation of the binding ends: it either returns a value, or raises a curlite::Exception.
    The exception carries the libcurl status that caused it; its message text comes from libcurl
    and is not modelled. */
module Outcomes {

  datatype Option<+T> = None | Some(value: T) {
    function GetOr(default: T): T {
      match this
      case Some(v) => v
      case None => default
    }
  }

  /** What a raised curlite::Exception reports: a failed libcurl status, or the constructor's
      "can't init curl_easy interface", which has no status. */
  datatype Failure = CurlError(code: int) | InitError

  datatype Outcome<+T> = Returned(value: T) | Raised(failure: Failure)
}
