/** Shared vocabulary of the model. */
module Basics {

  /** A C pointer that may be NULL. */
  datatype Option<+T> = None | Some(value: T) {
    function GetOr(default: T): T {
      match this
      case Some(v) => v
      case None => default
    }
  }

  /** Uid used when no user session is known, i.e. (uid_t)-1. */
  const UID_UNKNOWN: int := 0xFFFF_FFFF

  /** Physical connection as seen by the rest of the daemon. */
  datatype CableState = Unknown | Disconnected | ChargerConnected | PcConnected

  predicate IsConnected(c: CableState) {
    c.ChargerConnected? || c.PcConnected?
  }
}
