/** Option and Result, the two shapes every Go `(T, error)` pair and nilable
    pointer of the library API is modelled with. */
module Wrappers {

  datatype Option<+T> = None | Some(value: T)

  datatype Result<+T, +E> = Success(value: T) | Failure(error: E)
}
