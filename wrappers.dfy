/** An optional value, standing for the source's `T | undefined` fields and results. */
module Wrappers {

  datatype Option<+T> = None | Some(value: T)
}
