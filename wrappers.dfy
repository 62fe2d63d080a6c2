/** The optional value the source writes as `undefined` / `null`. */
module Wrappers {

  datatype Option<+T> = None | Some(value: T)
}
