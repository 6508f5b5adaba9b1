/** The Option type that stands for Rust's Option<T> throughout the model. */
module Wrappers {

  datatype Option<+T> = None | Some(value: T)
}
