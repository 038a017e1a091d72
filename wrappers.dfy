/** Option and Result, plus the Python exceptions the modelled code can raise. */
module Wrappers {

  datatype Option<+T> = None | Some(value: T)

  datatype Result<+T, +E> = Ok(value: T) | Err(error: E)

  /** The exceptions the modelled scripts raise on bad input. */
  datatype PyError =
    | KeyError(key: string)        // dict lookup of a missing key
    | IndexError                   // indexing an empty list
    | AttributeError(attr: string) // attribute lookup on the wrong kind of object
    | TypeError                    // comparing None with a number
}
