/** Small failure-carrying datatypes shared by every module of the model. */
module Outcomes {

  /** A value that may be absent, like Python's `None`. */
  datatype Option<+T> = None | Some(value: T)

  /**
   * The end of a Tk event handler. `Raised` models a Python exception that
   * escapes the handler: Tk reports it and carries on, and every mutation
   * made before the raise persists, so the state at the raise is kept.
   */
  datatype Handled<+S> = Returned(state: S) | Raised(state: S)
}
