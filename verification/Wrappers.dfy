/** Optional values and results that carry an error text. */
module Wrappers {

  datatype Option<+T> = None | Some(value: T)

  datatype Result<+T> = Ok(value: T) | Err(error: string)

  /** Prefix-closed ordering of lists: nothing is ever taken out or reordered. */
  ghost predicate Extends<T>(newer: seq<T>, older: seq<T>) {
    older <= newer
  }
}
