/** Option and Result values used wherever the source returns `undefined`/`None`
    or raises an error that a caller observes. */
module Wrappers {

  datatype Option<+T> = None | Some(value: T)

  /** `o ?? otherwise`. */
  function Or<X>(o: Option<X>, otherwise: X): X {
    match o
    case Some(x) => x
    case None => otherwise
  }

  datatype Result<+R, +E> = Success(value: R) | Failure(error: E)
}
