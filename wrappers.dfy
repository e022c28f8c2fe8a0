/** Option, Result and the panic wrapper shared by the whole model. */
module Wrappers {

  datatype Option<T> = None | Some(value: T)

  datatype Result<T, E> = Ok(value: T) | Err(error: E)

  /** Why a Rust `panic!`, `unimplemented!`, `assert!` or `unwrap` ends the process. */
  datatype Panic = Unimplemented | UnexpectedToken | AssertionFailed

  /** The outcome of a Rust call that may panic: it returns a value, or the process aborts. */
  datatype Outcome<T> = Done(value: T) | Panicked(panic: Panic)
}
