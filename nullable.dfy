/** JavaScript's `null`, as the React state cells of the page use it. */
module Nullable {

  /** `None` stands for `null`, `Some(v)` for a present value `v`. */
  datatype Option<+T> = None | Some(value: T)
}
