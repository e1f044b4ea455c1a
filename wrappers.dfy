/** Failure-carrying values shared by every module of the model. */
module Wrappers {

  datatype Option<+T> = None | Some(value: T)

  datatype Result<+T, +E> = Ok(value: T) | Err(error: E)

  /** The Python exceptions that escape the modelled code. */
  datatype Error =
    | IndexError       // `random.choice([])`, `segments[0]` on an empty list
    | KeyError(key: string)  // a catalog entry without the field that is looked up
    | AttributeError   // a method called on `None` or on a dict that has no `append`
}
