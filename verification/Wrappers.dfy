/** Optional values, used wherever the program has a nil pointer, an empty
    string meaning "none", or a missing map entry. */
module Wrappers {

  datatype Option<+T> = None | Some(value: T)

  datatype Result<+T, +E> = Ok(value: T) | Err(error: E)
}
