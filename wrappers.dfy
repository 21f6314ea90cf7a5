/** Option and the outcome of a computation that may hit a Go runtime panic. */
module Wrappers {

  datatype Option<+T> = None | Some(value: T)

  /** The Go runtime panics the evaluator core can raise. */
  datatype Fault =
    | NilDereference   // a method or field access through a nil *ASTNode
    | DivideByZero     // integer division by zero
    | IndexOutOfRange  // ts.Values[0] on an empty token slice (Peek or Pop)

  /** Either a value, or the panic that aborts the whole evaluation. */
  datatype Result<+T> = Ok(value: T) | Panic(fault: Fault) {

    predicate IsFailure() {
      Panic?
    }

    function PropagateFailure<U>(): Result<U>
      requires Panic?
    {
      Panic(fault)
    }

    function Extract(): T
      requires Ok?
    {
      value
    }
  }
}
