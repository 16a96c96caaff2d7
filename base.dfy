/** Small shared datatypes: an optional value, and the outcome of a Python call that may raise. */
module Base {

  datatype Option<T> = None | Some(value: T)

  /** What a Python call produces: the value it returns, or an exception that escapes it,
      carried as the exception's text (`str(e)`). */
  datatype Outcome<T> = Return(value: T) | Throw(error: string)
}
