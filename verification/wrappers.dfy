/** Optional values: the model of a TypeScript `T | null` or an optional (`?`) field. */
module Wrappers {

  /** `None` stands for `null` / `undefined`, `Some(v)` for a present value. */
  datatype Option<+T> = None | Some(value: T)
}
