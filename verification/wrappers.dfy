/** The optional value used for JavaScript's `undefined`/`null` and for absent error fields. */
module Wrappers {

  datatype Option<+T> = None | Some(value: T)
}
