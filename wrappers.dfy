/** Optional values, used for Rust's `Option` fields and for decoders that may reject their input. */
module Wrappers {
  datatype Option<+T> = None | Some(value: T)
}
