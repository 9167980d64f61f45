/** Rust's Option, as returned by `send_to` and by a lock attempt. */
module Wrappers {

  datatype Option<+T> = None | Some(value: T)

}
