/**
 * Failure-carrying values shared by the whole model.
 *
 * Ruby methods of the EV3 library either return a value or raise; in the model
 * they return a `Result` (a value) or an `Outcome` (no value), and the raised
 * exception class is an `Error`.
 */
module Wrappers {

  /** The Ruby exception classes the library raises (directly or through the runtime). */
  datatype Error =
    | ArgumentError       // the library's own validation failures
    | RuntimeError        // Battery#low? and the Color `name?` predicates
    | NoMethodError       // a method called on nil (a missing sysfs attribute), or on a Symbol
    | TypeError           // nil used as a number (a missing LED max_brightness)
    | KeyError            // Hash#fetch of an unknown key
    | ZeroDivisionError   // a Rational with a zero denominator

  datatype Option<+T> = None | Some(value: T)

  datatype Result<+T> = Success(value: T) | Failure(error: Error) {
    predicate IsFailure() { Failure? }

    function PropagateFailure<U>(): Result<U>
      requires Failure?
    {
      Failure(error)
    }

    function Extract(): T
      requires Success?
    {
      value
    }
  }

  datatype Outcome = Pass | Fail(error: Error) {
    predicate IsFailure() { Fail? }

    function PropagateFailure(): Outcome
      requires Fail?
    {
      this
    }
  }
}
