/** Small datatypes shared by the model. */
module Wrappers {

  /** An optional value: `None` stands for Python's `None`. */
  datatype Option<+T> = None | Some(value: T)

  /** The outcome of building the inventory: a value, or the single
      failure kind that the top-level `except` turns into an error line. */
  datatype Result<+T> = Success(value: T) | Failure
}
