/** Optional values, success-or-failure results, and what a JavaScript `throw` can carry. */
module Outcomes {

  datatype Option<+T> = None | Some(value: T) {
    function GetOr(default: T): T {
      match this
      case Some(v) => v
      case None => default
    }
  }

  datatype Result<+R, +E> = Success(value: R) | Failure(error: E)

  /** A thrown value: an `Error` instance with its message, or anything else
      (a DOM `ProgressEvent`, say), for which `err instanceof Error` is false. */
  datatype Thrown = ErrorValue(message: string) | OtherValue

  /** JavaScript truthiness of a `string | null | undefined`: the empty string is falsy. */
  predicate Truthy(s: Option<string>) {
    s.Some? && s.value != ""
  }

  /** `err instanceof Error ? err.message : fallback`, the pattern every App handler uses. */
  function MessageOf(e: Thrown, fallback: string): string {
    match e
    case ErrorValue(msg) => msg
    case OtherValue => fallback
  }
}
