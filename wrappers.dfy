/** Nullable spreadsheet cells: `None` stands for pandas' NaN (an empty cell). */
module Wrappers {
  datatype Option<+T> = None | Some(value: T)
}
