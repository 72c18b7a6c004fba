/** Option, the model of Rust's `Option<T>` as the grids and the pattern reader return it. */
module Wrappers {
  datatype Option<+T> = None | Some(value: T)
}
