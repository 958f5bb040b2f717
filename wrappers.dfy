/** Outcome datatypes shared by the whole model. */
module Wrappers {

  /** Rust's `Result<T, E>`. */
  datatype Result<+T, +E> = Ok(value: T) | Err(error: E)

  /** The outcome of a Rust call that may panic: it either returns a value
      or panics (an `unwrap` on `None`, an explicit `panic!`). */
  datatype Run<+T> = Returns(value: T) | Panics
}
