/** The optional values the system's Rust code writes as `Option<T>`. */
module Wrappers {

  datatype Option<+T> = None | Some(value: T)

}
