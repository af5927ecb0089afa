/** Optional values, Python exceptions and the results of operations that may raise. */
module Base {

  datatype Option<+T> = None | Some(value: T)

  /** A Python exception raised by the modelled code: its class and its message (`str(e)`). */
  datatype Error =
    | ValueError(message: string)
    | TypeError(message: string)

  /** The value returned, or the exception raised, by a Python call. */
  datatype Result<+T> = Ok(value: T) | Err(error: Error)
}
