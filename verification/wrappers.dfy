/** Option and Result, the two failure-carrying shapes the rest of the model
    uses in place of Go's nil pointers and `(value, error)` pairs. */
module Wrappers {

  /** A possibly-absent value: Go's `*T` that may be nil. */
  datatype Option<+T> = None | Some(value: T) {

    /** The value, or `default` when absent. */
    function GetOr(default: T): T
    {
      match this
      case Some(v) => v
      case None => default
    }
  }

  /** The error kinds the modelled core can surface. */
  datatype Error =
    | InvalidInput(reason: string)   // bad month, unknown season
    | StoreFailure(reason: string)   // the query the store would reject

  /** Go's `(value, error)` return pair. */
  datatype Result<+T> = Ok(value: T) | Err(error: Error)
}
