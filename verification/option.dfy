/** Rust's `Option`. */
module Opt {
  datatype Option<T> = None | Some(value: T)
}
