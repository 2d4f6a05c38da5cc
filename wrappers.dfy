/** Option and error-carrying Result values shared by the other modules. */
module Wrappers {

  datatype Option<+T> = None | Some(value: T)

  /** The outcome of a step that either produces a value or fails with
      the text of a Go `error` (what `%v` prints for it). */
  datatype Result<+T> = Ok(value: T) | Err(cause: string)
}
