/** Optional values, standing in for Python's `None`. */
module Wrappers {

  datatype Option<+T> = None | Some(value: T)
}

/** The exceptions the three sensor platforms raise or let escape, and the
    outcome of a Python call that either returns a value or raises. */
module Errors {

  datatype Exc =
    | SolaxRequestError   // raised by the request functions on every failure they handle
    | NameError           // an undefined name in the real-time platform's retry branch
    | IndexError          // `[0]` on an empty list while parsing a validated response

  datatype Outcome<+T> = Returned(value: T) | Raised(error: Exc)
}
