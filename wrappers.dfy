/** Small failure-carrying datatypes shared by the modules of the item cache model. */
module Wrappers {

  /** A value that may be absent: a repository lookup or a cache GET that finds nothing. */
  datatype Option<+T> = None | Some(value: T)

  /** The outcome of a read that may end in HTTP 404: either the value or the Not-Found error. */
  datatype Result<+T> = Ok(value: T) | NotFound
}
