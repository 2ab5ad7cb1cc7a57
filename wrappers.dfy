/** An optional value, for results that Python signals with `None` or with an
    exception. */
module Wrappers {
  datatype Option<T> = None | Some(value: T)
}
