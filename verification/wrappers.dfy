/** Outcome types shared by the modules. */
module Wrappers {
  datatype Option<T> = None | Some(value: T)

  datatype Result<T, E> = Ok(value: T) | Err(error: E)

  /** The Python exceptions the modelled code can raise on a bad input. */
  datatype Error =
    | KeyError          // a dictionary lookup with a missing key
    | IndexError        // an index past the end of a list or array
    | UnboundLocalError // a local read before any branch assigned it
}
