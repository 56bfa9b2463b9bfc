/** The optional value used wherever the JavaScript code holds `undefined` or `null`. */
module Wrappers {
  datatype Option<+T> = None | Some(value: T)
}
