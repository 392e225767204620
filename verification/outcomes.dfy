/** Failure-compatible result types shared by the three components.

    The native code has no recoverable errors: a failed `assert` or a Rust
    panic ends the process. A use of the null H.264 codec is undefined
    behaviour, and the model treats it as ending the process too. The model
    keeps those paths visible by returning `Panic(reason)` instead of a
    value, so that a caller can be proved never to reach them.
 */
module Outcomes {

  /** Either the operation returned `value`, or the process stopped for `reason`. */
  datatype Outcome<+T, +E> = Ok(value: T) | Panic(reason: E) {

    predicate IsFailure() {
      Panic?
    }

    function PropagateFailure<U>(): Outcome<U, E>
      requires Panic?
    {
      Panic(reason)
    }

    function Extract(): T
      requires Ok?
    {
      value
    }
  }

  /** Rust's `Option`. */
  datatype Option<+T> = None | Some(value: T)
}
