/** The two ways an operation of the model reports that it has nothing to
    give back. */
module Outcome {

  /** Python's `None` next to a proper value. The parsers in this project
      chain on it with `:-`, which stops at the first `None`. */
  datatype Option<+T> = None | Some(value: T) {
    predicate IsFailure() {
      None?
    }

    function PropagateFailure<U>(): Option<U>
      requires None?
    {
      None
    }

    function Extract(): T
      requires Some?
    {
      value
    }
  }

  /** A value, or the reason the program reports instead of one. */
  datatype Result<+T, +E> = Success(value: T) | Failure(error: E)
}
