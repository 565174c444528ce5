/* Failure-compatible result types shared by every module of the decoder. */
module Wrappers {

  /** The two exception classes the decoder throws: TR_ReadError (l_main.h)
      and prtl::prtl_exception (prtl.h). Only the message is kept. */
  datatype Error = ReadError(message: string) | ArrayError(message: string)

  datatype Option<T> = None | Some(value: T) {
    predicate IsFailure() { None? }
    function PropagateFailure<U>(): Option<U> requires None? { None }
    function Extract(): T requires Some? { value }
  }

  datatype Result<T> = Success(value: T) | Failure(error: Error) {
    predicate IsFailure() { Failure? }
    function PropagateFailure<U>(): Result<U> requires Failure? { Failure(error) }
    function Extract(): T requires Success? { value }
  }

  /** A value decoded from a byte sequence, with the position after it. */
  datatype Parsed<T> = Parsed(value: T, next: nat)
}
