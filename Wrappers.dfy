/** Optional values: a null `std::shared_ptr` or a null `QString` is `None`. */
module Wrappers {

  datatype Option<+T> = None | Some(value: T)
}
