/** Optional values and results with an error, as the drivers' exceptions and
    `sys.exit` paths are modelled. */
module Results {

  datatype Option<+T> = None | Some(value: T)

  datatype Result<+T, +E> = Ok(value: T) | Err(error: E)
}
