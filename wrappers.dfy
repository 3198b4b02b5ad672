/** Optional values and results with an error, used wherever the bot's code
    may find nothing (`find` returning undefined) or may throw. */
module Wrappers {

  datatype Option<+T> = None | Some(value: T)

  datatype Result<+T, +E> = Ok(value: T) | Err(error: E)
}
