/** Option, Result and abort outcomes shared by every module of the model.
    A Rust `panic!`, `expect` or `unwrap` on a missing value, an out-of-range
    `Vec::remove` and an arithmetic overflow (debug builds) all end the process;
    the model makes each of them an explicit `Abort`/`Panic` outcome so that
    "aborts iff ..." can be stated and proved. */
module Wrappers {

  datatype Option<+T> = None | Some(value: T)

  datatype Result<+T, +E> = Success(value: T) | Failure(error: E)

  /** Outcome of an operation that returns nothing but may abort. */
  datatype Status = Ok | Panic(message: string)

  /** Outcome of an operation that returns a value but may abort. */
  datatype Abortable<+T> = Done(value: T) | Abort(message: string)
}
