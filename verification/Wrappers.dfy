/** Failure-carrying results, and a maximum, shared by every component. */
module Wrappers {

  datatype Option<+T> = None | Some(value: T)

  datatype Result<+R, +E> = Success(value: R) | Failure(error: E)

  function Max(a: nat, b: nat): nat {
    if a < b then b else a
  }
}
