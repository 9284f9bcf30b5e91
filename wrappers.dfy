/** Optional values and results with an error, the shapes the validator's
    `Optional[...]` fields and raised exceptions take in this model. */
module Wrappers {

  datatype Option<+T> = None | Some(value: T)

  datatype Result<+T, +E> = Ok(value: T) | Err(error: E)
}
