/** Option and result types shared by the other modules. */
module Wrappers {

  /** A value that may be absent: stands for a C++ double that holds NaN ("unset"). */
  datatype Option<+T> = None | Some(value: T)

  /** The outcome of an operation that the C++ code ends with a thrown exception. */
  datatype Result<+R, +E> = Success(value: R) | Failure(error: E)
}
