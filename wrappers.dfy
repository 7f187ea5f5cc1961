/** Small failure-carrying datatypes shared by the modules of this model. */
module Wrappers {

  datatype Option<+T> = None | Some(value: T)

  /** A bus error, identified by the position in the bus trace of the transaction that failed. */
  datatype BusError = BusError(transaction: nat)

  datatype Result<+T> = Ok(value: T) | Err(error: BusError)
}
