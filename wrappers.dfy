/** Option and Result values shared by every module, and the errors the
    toolchain raises: the CompilerException of the assembler (a kind such as
    "Syntax" or "Name" together with its message) and the Python exceptions
    that some paths of the source end in. */
module Wrappers {

  datatype Option<+T> = None | Some(value: T)

  /** A raised exception. A CompilerException carries its kind and its
      message, kept as the message template with the values it is formatted
      with (`'...{}...'.format(args)`); a FileError its file name and its
      message. */
  datatype Error =
    | Compiler(kind: string, message: string, args: seq<string>)
    | FileError(fileName: string, message: string)
    | Python(exception: string)

  datatype Result<+T> = Success(value: T) | Failure(error: Error) {
    predicate IsFailure() { Failure? }

    function PropagateFailure<U>(): Result<U>
      requires Failure?
    {
      Failure(error)
    }

    function Extract(): T
      requires Success?
    {
      value
    }
  }

  /** An outcome with no value: an operation that either returns or raises. */
  datatype Outcome = Pass | Fail(error: Error) {
    predicate IsFailure() { Fail? }

    function PropagateFailure<U>(): Result<U>
      requires Fail?
    {
      Failure(error)
    }
  }
}
