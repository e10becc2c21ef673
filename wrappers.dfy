/** Option and Result: Python's `None` and raised exceptions, as values. */
module Wrappers {

  datatype Option<+T> = None | Some(value: T) {
    /** `x or default` for an optional value whose present value is always truthy. */
    function GetOr(default: T): T {
      match this
      case Some(v) => v
      case None => default
    }
  }

  datatype Result<+R, +E> = Success(value: R) | Failure(error: E)

  /** Python's `s or d` for a string that may be None: None and "" are both falsy. */
  function OrDefault(s: Option<string>, d: string): string {
    if s.Some? && s.value != "" then s.value else d
  }
}
