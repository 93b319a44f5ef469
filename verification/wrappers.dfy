/** Option and Result, the two wrapper types the builder and its store use. */
module Wrappers {

  /** Rust's `Option`: the builder's cursor is an `Option<Entity>`. */
  datatype Option<+T> = None | Some(value: T)

  /** Rust's `Result`: the store's insertion primitives may fail. */
  datatype Result<+T, +E> = Success(value: T) | Failure(error: E)
}
