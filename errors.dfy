/** Failure taxonomy of the CLF reader and the wrappers every parser returns.

    The reader raises two exception classes of its own: `ParsingError` for structural
    problems (a missing or ambiguous element, an unknown tag, a foreign namespace) and
    `ValidationError` for the bit-depth chain. Everything else that can go wrong is a
    Python built-in exception escaping from a conversion: an enumeration built from an
    unknown or absent string, `float()` or `int()` of text that is not a number, or a
    method called on an absent attribute. Those are all `ConversionError` here. */
module Errors {

  datatype Option<+T> = None | Some(value: T) {
    function GetOr(default: T): T {
      match this
      case Some(v) => v
      case None => default
    }
  }

  datatype Error =
    | ParsingError
      /** Nodes `pair` and `pair + 1` of the pipeline disagree on their bit depth. */
    | ValidationError(pair: nat)
    | ConversionError

  datatype Result<+T> = Success(value: T) | Failure(error: Error) {
    predicate IsFailure() {
      Failure?
    }

    function PropagateFailure<U>(): Result<U>
      requires Failure?
    {
      Failure(error)
    }

    function Extract(): T
      requires Success?
    {
      value
    }
  }
}
