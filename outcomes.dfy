/** Optional values and results, used where the plotter's driver skips a
    line or raises an error. */
module Outcomes {

  datatype Option<T> = None | Some(value: T)

  datatype Result<T, E> = Ok(value: T) | Err(error: E)
}
