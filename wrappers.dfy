/** The optional fields of the engine's records (a JavaScript property that is absent or `undefined`). */
module Wrappers {

  datatype Option<T> = None | Some(value: T)
}
