/** The optional value used for the handlers' "not found" answers. */
module Wrappers {

  /** Some(value), or None where the service answers 404 (or `findIndex` gives -1). */
  datatype Option<+T> = None | Some(value: T)
}
