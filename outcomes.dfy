/** Outcomes of evaluating an expression in Calc/calculator2025.py.

    Every `raise EvalError("...")` of the evaluator has its own kind, so a
    failure says which message the source would produce.  Exceptions that the
    source does NOT turn into an `EvalError` (they escape `safe_eval` as
    ordinary Python exceptions) are kept apart as `Uncaught`.
 */
module Outcomes {

  /** One kind per `EvalError` message of `safe_eval`. */
  datatype EvalErrorKind =
    | SyntaxError                    // "Syntax error"
    | InvalidConstant                // "Invalid constant"
    | DivisionByZero                 // "Division by zero"
    | UnsupportedBinaryOp            // "Unsupported binary op"
    | UnsupportedUnaryOp             // "Unsupported unary op"
    | InvalidFunction                // "Invalid function"
    | FunctionNotAllowed(name: string) // f"Function {fname} not allowed"
    | FunctionError                  // "Function error"
    | NameNotAllowed                 // "Name not allowed"
    | UnsupportedExpression          // "Unsupported expression"
    | ComplexResultNotSupported      // "Complex result not supported"

  /** Python exceptions raised by arithmetic outside any `try` of the evaluator. */
  datatype HostException = ZeroDivisionError | TypeError

  datatype Failure =
    | EvalError(kind: EvalErrorKind)
    | Uncaught(exc: HostException)
      /** A bare name bound to a function: the source returns the function
          object itself, which this model does not carry as a value. */
    | FunctionObject(name: string)

  /** A value, or `None` when a host function raised (any exception). */
  datatype Option<+T> = None | Some(value: T)

  /** Either a value or the failure that aborted the evaluation. */
  datatype Result<+T> = Ok(value: T) | Err(error: Failure) {
    predicate IsFailure() {
      Err?
    }

    function PropagateFailure<U>(): Result<U>
      requires Err?
    {
      Err(error)
    }

    function Extract(): T
      requires Ok?
    {
      value
    }
  }
}
