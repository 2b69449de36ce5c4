/** Values that JavaScript code leaves as `null` or `undefined`. */
module Wrappers {

  /** `None` stands for `null`/`undefined`, `Some(v)` for a present value. */
  datatype Option<+T> = None | Some(value: T)
}
