/** A value that may be missing: NULL, a refusal, or a step that is not possible. */
module Wrappers {

  datatype Option<+T> = None | Some(value: T)
}
