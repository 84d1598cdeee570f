/** Small wrapper types shared by every module of the model. */
module Base {

  /** Python's `None` or a present value. */
  datatype Option<+T> = None | Some(value: T)

  /** The outcome of a step that may raise a Python exception which nothing
      in the core catches (a TypeError, KeyError, IndexError, ZeroDivisionError
      or AttributeError). Raised aborts the whole pass. */
  datatype Checked<+T> = Ok(value: T) | Raised
}
