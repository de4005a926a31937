/** The raw datagram socket the reliability layer sits on (the base `UdpClient`),
    reduced to what the layer observes: whether it is connected to a fixed peer,
    the datagrams handed to it for sending, and the datagrams waiting to be received. */
module Transport {
  import opened Common

  /** One datagram handed to the socket: the buffer, the length argument, and the
      destination (`None` for the connected-mode send to the fixed peer). */
  datatype Datagram = Datagram(data: seq<byte>, length: int, dest: Option<Endpoint>)

  /** One received datagram and the endpoint it came from. */
  datatype Incoming = Incoming(data: seq<byte>, source: Endpoint)

  class UdpSocket {
    /** Whether a peer is fixed; it does not change after construction. */
    const connected: bool
    /** Every datagram written so far, oldest first; only ever appended to. */
    var sent: seq<Datagram>
    /** The datagrams the network will still deliver, in arrival order. */
    var inbox: seq<Incoming>

    constructor (connected: bool, inbox: seq<Incoming>)
      ensures this.connected == connected && this.inbox == inbox && sent == []
    {
      this.connected := connected;
      this.inbox := inbox;
      sent := [];
    }

    /** Connected-mode send to the fixed peer; refused on an unconnected socket. */
    method Send(data: seq<byte>, length: int) returns (r: Outcome)
      modifies this
      ensures inbox == old(inbox)
      ensures r == if connected then Pass else Fail(NotConnected)
      ensures sent == if connected then old(sent) + [Datagram(data, length, None)] else old(sent)
    {
      if !connected {
        return Fail(NotConnected);
      }
      sent := sent + [Datagram(data, length, None)];
      r := Pass;
    }

    /** Addressed send; refused while a peer is fixed. */
    method SendTo(data: seq<byte>, length: int, endPoint: Endpoint) returns (r: Outcome)
      modifies this
      ensures inbox == old(inbox)
      ensures r == if connected then Fail(AlreadyConnected) else Pass
      ensures sent == if connected then old(sent) else old(sent) + [Datagram(data, length, Some(endPoint))]
    {
      if connected {
        return Fail(AlreadyConnected);
      }
      sent := sent + [Datagram(data, length, Some(endPoint))];
      r := Pass;
    }

    /** Takes the next datagram; with none left the socket reports that it is closed. */
    method Receive() returns (r: Result<Incoming>)
      modifies this
      ensures sent == old(sent)
      ensures old(inbox) == [] ==> r == Err(TransportClosed) && inbox == []
      ensures old(inbox) != [] ==> r == Ok(old(inbox)[0]) && inbox == old(inbox)[1..]
    {
      if inbox == [] {
        return Err(TransportClosed);
      }
      r := Ok(inbox[0]);
      inbox := inbox[1..];
    }
  }
}
