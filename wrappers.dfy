/** Optional values (Java's nullable references) and the outcome of a call to the
    Diversion API, which either returns a value or throws. */
module Wrappers {

  /** A Java reference that may be null. */
  datatype Option<+T> = None | Some(value: T) {
    function GetOr(default: T): T {
      match this
      case Some(v) => v
      case None => default
    }
  }

  /** What a call to the remote API produced: its result, or an exception
      (IOException / InterruptedException) that the caller may catch. */
  datatype Fetch<+T> = Fetched(value: T) | FetchFailed

  /** Java's `s != null && !s.isEmpty()`. */
  predicate NonEmpty(s: Option<string>) {
    s.Some? && s.value != ""
  }
}
