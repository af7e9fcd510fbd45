/** Small failure-carrying datatypes shared by the model. */
module Wrappers {

  /** An optional value; `None` stands for JavaScript's `null` or `undefined`. */
  datatype Option<+T> = None | Some(value: T)

  /** The outcome of a step that can throw: `Err` carries the thrown error's `message`. */
  datatype Result<+T> = Ok(value: T) | Err(message: string)
}
