/** Value types shared by the graph and the runner. */
module Common {

  datatype Option<+T> = None | Some(value: T)

  /** The outcome of an operation that may raise: a value, or the error it raised. */
  datatype Result<+T, +E> = Success(value: T) | Failure(error: E)

  /** A Python object whose contents the model does not inspect; `Null` is Python's `None`. */
  datatype Value = Null | Obj(repr: string)
}
