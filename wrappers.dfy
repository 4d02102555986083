/** The optional-value datatype used throughout the model for absent records and fields. */
module Wrappers {

  /** Reservation, job and video identifiers. */
  type Id = nat

  datatype Option<+T> = None | Some(value: T) {

    /** The carried value, or `default` when there is none. */
    function GetOr(default: T): T {
      match this
      case Some(v) => v
      case None => default
    }
  }
}
