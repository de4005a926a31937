/** Types shared by every layer of the reliable-UDP model: bytes, endpoints,
    and the failure-carrying results that stand in for the source's exceptions. */
module Common {

  /** An unsigned 8-bit value, as C#'s `byte`. */
  newtype byte = x: int | 0 <= x < 256

  /** A peer address; its inner structure plays no part in the protocol. */
  datatype Endpoint = Endpoint(address: nat, port: nat)

  /** The exceptions the modelled code can raise, one constructor each. */
  datatype Error =
    | IndexOutOfRange   // `dgram[0]` on an empty datagram
    | Overflow          // `new byte[dgram.Length - 2]` on a one-byte reliable datagram
    | SequenceInUse     // the counter's current number is still pending, however few others are
    | KeyNotFound       // a dictionary indexer on a sequence number that is not pending
    | NotConnected      // a destination-less operation on an unconnected socket
    | AlreadyConnected  // a destination-addressed send on a connected socket
    | TransportClosed   // the underlying socket has nothing more to deliver

  datatype Option<+T> = None | Some(value: T)

  datatype Result<+T> = Ok(value: T) | Err(error: Error)

  /** The outcome of an operation that returns nothing when it succeeds. */
  datatype Outcome = Pass | Fail(error: Error)
}
