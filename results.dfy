/** Option and result types for the error paths of the deck rendering code. */
module Results {

  datatype Option<+T> = None | Some(value: T)

  /** The ways an image operation of the deck rendering path can fail. */
  datatype Error =
    | NoImageProvided            // neither an in-memory image nor a file name was given
    | ImageLoadError(path: string) // the named file cannot be opened as an image
    | InvalidGeometry            // a resize to a width or height below one pixel

  datatype Result<+T> = Ok(value: T) | Err(error: Error)
}
