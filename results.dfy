/** Failure-compatible wrappers shared by the sequence engine. */
module Results {

  /** A map lookup that may miss, as `Map.get` returning null does. */
  datatype Option<T> = None | Some(value: T)

  /** The one exception the strategies throw on purpose. */
  datatype Error = IllegalArgument(message: string)

  /** A strategy's answer: the value, or the exception it throws. */
  datatype Result<T> = Ok(value: T) | Err(error: Error)
}
