/** Option, used wherever the benchmark drivers can produce "no value". */
module Wrappers {

  datatype Option<+T> = None | Some(value: T)
}
