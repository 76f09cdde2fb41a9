/** Option and Result, shared by the scraper's modules. */
module Common {

  /** A value that may be absent: a missing page element, a failed snapshot. */
  datatype Option<+T> = None | Some(value: T)

  /** Either a value or the reason the operation raised instead of returning. */
  datatype Result<+T, +E> = Ok(value: T) | Err(error: E)
}
