/** A value that may be absent, as Python's `None` is for the resume text. */
module Wrappers {

  datatype Option<+T> = None | Some(value: T)

}
