/** Option and Result, with the members `:-` needs for early returns. */
module Wrappers {

  datatype Option<T> = None | Some(value: T) {
    /** `x || default` for a value that may be nil. */
    function GetOr(default: T): T {
      if Some? then value else default
    }
  }

  /** The outcome of a Ruby call that may raise. */
  datatype Result<T, E> = Ok(value: T) | Err(error: E) {
    predicate IsFailure() {
      Err?
    }

    function PropagateFailure<U>(): Result<U, E>
      requires Err?
    {
      Err(error)
    }

    function Extract(): T
      requires Ok?
    {
      value
    }
  }
}
