/** The Some/None datatype used for operations of the ledger that can fail. */
module Wrappers {

  datatype Option<+T> = None | Some(value: T)
}
