/** net/TcpConnection.h: the states of a connection. */
module ConnectionState {
  datatype ConnState = Connecting | Connected | Disconnecting | Disconnected
}
