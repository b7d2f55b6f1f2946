/** An optional value, for the source's optional parameters and results. */
module Wrappers {

  datatype Option<T> = None | Some(value: T)
}
