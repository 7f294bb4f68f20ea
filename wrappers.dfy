/** The usual optional-value wrapper, used for `null`/`undefined` results. */
module Wrappers {

  datatype Option<+T> = None | Some(value: T)
}
