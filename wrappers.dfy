/** Optional values (JavaScript's `undefined`) and validation outcomes. */
module Wrappers {

  /** `None` stands for a JavaScript `undefined`. */
  datatype Option<+T> = None | Some(value: T)

  /** The outcome of a schema's `safeParse`: the parsed value, or the issues found. */
  datatype Result<+R, +E> = Success(value: R) | Failure(error: E)
}
