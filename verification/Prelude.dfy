/** Small value types shared by every module. */
module Prelude {
  datatype Option<+T> = None | Some(value: T) {
    function GetOr(default: T): T {
      match this
      case None => default
      case Some(v) => v
    }
  }

  datatype Result<+T, +E> = Ok(value: T) | Err(error: E)

  /** A `Guid`; 0 stands for `Guid.Empty`. */
  type Guid = nat

  /** A point in time, in ticks. */
  type Time = int
}
