/**
 * The exceptions the binders and evaluators can raise, as values: an operation that may throw
 * returns `Throws(fault)` where the source would raise, and `Ok(value)` where it returns.
 */
module Faults {
  import opened SyntaxKinds

  datatype Fault =
    /** `throw new Exception($"Unexpected syntax {kind}")` in a binder. */
    | UnexpectedSyntax(kind: SyntaxKind)
    /** An evaluator's `default` branch for a unary operator kind it does not handle. */
    | UnexpectedUnaryOperator
    /** An evaluator's `default` branch for a binary operator kind it does not handle. */
    | UnexpectedBinaryOperator
    /** An unboxing cast `(int)` or `(Boolean)` applied to a value of the other type. */
    | InvalidCast
    /** A dictionary read of a key that is not present. */
    | KeyNotFound
    /** Integer division by zero. */
    | DivideByZero
    /** `int.MinValue / -1`, whose quotient does not fit. */
    | Overflow

  datatype Result<+T> = Ok(value: T) | Throws(fault: Fault)
}
