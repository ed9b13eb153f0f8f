/** The optional value used wherever the Java code has a nullable reference
    or a lookup that can miss. */
module Wrappers {

  datatype Option<+T> = None | Some(value: T)

  /** A socket reference field: `null`, an open socket, or a socket that was
      closed but whose reference was kept. */
  datatype SocketRef = NoSocket | OpenSocket | ClosedSocket
}
