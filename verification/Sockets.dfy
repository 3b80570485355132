/** Sockets as they are moved between the holders of a connection. */
module Sockets {
  import opened Wrappers

  /** An accepted connection's socket; `open` is what `is_open()` reports. */
  datatype Socket = Socket(id: nat, open: bool)

  function Closed(s: Option<Socket>): Option<Socket> {
    match s
    case None => None
    case Some(x) => Some(x.(open := false))
  }
}
