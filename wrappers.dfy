/** Option and Result, used for the `Option` locals of the extractor and for expansion aborts. */
module Wrappers {

  datatype Option<+T> = None | Some(value: T)

  /** Some value of `first` if it has one, otherwise `second`. */
  function OrElse<T>(first: Option<T>, second: Option<T>): Option<T>
  {
    if first.Some? then first else second
  }

  datatype Result<+R, +E> = Ok(value: R) | Err(error: E)
}
