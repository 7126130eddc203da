/** Optional values, used where the modelled code can find nothing. */
module Wrappers {

  datatype Option<T> = None | Some(value: T)
}
