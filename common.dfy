/** Value types shared by the consistency checkers, the fixers and the other tools. */
module Common {

  /** Python's `None` / a present value. */
  datatype Option<+T> = None | Some(value: T)

  /** A computed value, or the exception the Python code would raise instead. */
  datatype Result<+T> = Ok(value: T) | Err(error: string)

  /** One entry of a checker's error list: the `(line_num, message)` tuple. */
  datatype LineError = LineError(line: int, message: string)
}
