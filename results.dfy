/** Error-carrying results, used wherever the Go code returns `(value, error)`
    or panics, and for the values the JavaScript code parses with a NaN fallback. */
module Results {

  datatype Option<+T> = None | Some(value: T)

  datatype Result<+T, +E> = Ok(value: T) | Err(error: E)
}
