/** Optional values and the errors the pipeline's Python code can raise. */
module Outcomes {

  datatype Option<T> = None | Some(value: T)

  /** The exceptions that end one image's processing (the HTTP handler turns each into a 500). */
  datatype PyError =
    | ZeroDivisionError   // `width // pixel_size` with `pixel_size == 0`
    | UnboundLocalError   // `return pixelated` after neither method branch ran
    | OpenCvError         // an OpenCV call refused its arguments
    | ReshapeError        // numpy could not reshape the gathered palette back to the image

  datatype Result<T> = Ok(value: T) | Err(error: PyError) {
    predicate IsFailure() { Err? }

    function PropagateFailure<U>(): Result<U>
      requires Err?
    {
      Err(error)
    }

    function Extract(): T
      requires Ok?
    {
      value
    }
  }
}
