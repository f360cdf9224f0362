/** Option and Result values used for the Go `(value, error)` pairs of the adapters. */
module Wrappers {

  datatype Option<+T> = None | Some(value: T)

  /** A Go result pair: either a value with a nil error, or a non-nil error. */
  datatype Result<+T, +E> = Ok(value: T) | Err(error: E)

  /** The error half of a Go `(value, error)` pair; `None` is Go's nil. */
  function ErrorOf<T, E>(r: Result<T, E>): (e: Option<E>)
    ensures e.None? <==> r.Ok?
    ensures r.Err? ==> e == Some(r.error)
  {
    match r
    case Ok(_) => None
    case Err(err) => Some(err)
  }
}
