/** Optional values: a TypeScript field marked `?`, or a result that may be `undefined`. */
module Wrappers {
  datatype Option<T> = None | Some(value: T)
}
