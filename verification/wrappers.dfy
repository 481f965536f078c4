/** Optional values: `None` stands for PHP's `null` and for a missing array key. */
module Wrappers {

  datatype Option<+T> = None | Some(value: T)
}
