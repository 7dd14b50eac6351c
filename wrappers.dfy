/** A missing value: `None` stands for a NaN cell of a numpy array. */
module Wrappers {
  datatype Option<+T> = None | Some(value: T)
}
