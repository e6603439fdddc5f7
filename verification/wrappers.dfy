/** Failure-compatible helper datatypes shared by the whole model. */
module Wrappers {

  /** Go's nil-able pointers, slices and maps where nil-ness is observable. */
  datatype Option<+T> = None | Some(value: T) {

    function GetOr(default: T): T {
      match this
      case Some(v) => v
      case None => default
    }
  }

  /** A step that may panic. Go code that panics after mutating its receiver
      leaves that mutation visible to a caller that recovers, so the panicking
      case still carries the state reached at the moment of the panic. */
  datatype Outcome<+T> = Done(value: T) | Panicked(state: T, message: string) {

    function State(): T {
      match this
      case Done(v) => v
      case Panicked(s, _) => s
    }
  }
}
