/** Small definitions shared by every module. */
module Wrappers {

  /** A nullable Go pointer, or a map lookup that may miss. */
  datatype Option<+T> = None | Some(value: T) {
    function GetOr(default: T): T {
      match this
      case Some(v) => v
      case None => default
    }
  }

  /** The text of the nil UUID. */
  const NIL_UUID := "00000000-0000-0000-0000-000000000000"

  /** A truth value kept folded, so that proofs can pass it on without re-proving its parts. */
  datatype Claim = Claim(holds: bool)
}
