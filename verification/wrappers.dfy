/** Failure-carrying values used in place of HoloLingo's exceptions and
    its "no value" results. */
module Wrappers {

  /** A value that may be missing: an upstream read that failed. */
  datatype Option<+T> = None | Some(value: T)

  /** Either a computed value or the reason the computation failed. */
  datatype Result<+T, +E> = Success(value: T) | Failure(error: E)
}
