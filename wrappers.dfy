/** Option and Result types shared by the model, and the Python exceptions
    that the modelled code can raise on its error paths. */
module Wrappers {

  datatype Option<+T> = None | Some(value: T)

  /** The exceptions the modelled Python code raises and does not catch. */
  datatype PyError =
    | IndexError        // PIL getpixel out of range, list index out of range
    | ValueError        // int()/float() of a malformed string, missing canvas.json
    | ZeroDivisionError // modulo by a frame count of zero
    | HTTPError         // raise_for_status() on a 4xx or 5xx response

  /** The outcome of a Python call that either returns or raises. */
  datatype Result<+T> = Ok(value: T) | Err(error: PyError)
}
