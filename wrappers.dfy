/** Optional values: the model's stand-in for `std::string::npos`, Python's `None`
    and JavaScript's `undefined`. */
module Wrappers {
  datatype Option<+T> = None | Some(value: T)
}
