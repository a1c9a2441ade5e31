/** Option and Result, the failure-compatible wrappers used by every pass. */
module Wrappers {

  datatype Option<+T> = None | Some(value: T)

  datatype Result<+T, +E> = Success(value: T) | Failure(error: E) {

    predicate IsFailure() {
      Failure?
    }

    function PropagateFailure<U>(): Result<U, E>
      requires Failure?
    {
      Failure(error)
    }

    function Extract(): T
      requires Success?
    {
      value
    }
  }
}

/** The assembler's diagnostics: every error names a kind and the 1-based line it is reported on. */
module Errors {

  datatype ErrorKind =
    | ConstSyntax      // a CONST line that does not split into exactly three fields
    | DuplicateConst   // a CONST symbol defined twice
    | EmptyLabel       // a label line whose name is empty
    | DuplicateLabel   // a label defined twice
    | UnknownRegister  // an operand that is not a register name
    | BadLiteral       // a token that Python's int(x, 0) refuses
    | Arity            // a wrong operand count for the opcode
    | UnknownOpcode    // an opcode found in none of the tables

  datatype Error = Error(kind: ErrorKind, line: nat)
}
