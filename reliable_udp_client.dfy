/** The client surface (`ReliableUdpClient`): every send first checks that the
    socket's mode fits the overload, then frames the payload through the controller,
    then hands exactly the framed bytes and length to the base socket; receiving
    runs the controller's loop. */
module Client {
  import opened Common
  import opened Wire
  import opened Transport
  import opened Sequencing
  import opened Reliability

  /** The mode guard of a send: a destination-less send needs a connected socket,
      an addressed one an unconnected socket. */
  function ModeError(connected: bool, dest: Option<Endpoint>): (r: Option<Error>)
    ensures r == None <==> (dest.None? <==> connected)
    ensures r == Some(NotConnected) <==> dest.None? && !connected
    ensures r == Some(AlreadyConnected) <==> dest.Some? && connected
  {
    if dest.None? && !connected then Some(NotConnected)
    else if dest.Some? && connected then Some(AlreadyConnected)
    else None
  }

  /** One send through the client on values, `dest` being `None` for the
      destination-less overloads: the outcome, the registry afterwards, and the
      datagrams the base socket was given. */
  function SendStep(t: RegistryState, connected: bool, dgram: seq<byte>, bytes: int,
                    dest: Option<Endpoint>, reliable: bool): (r: (Outcome, RegistryState, seq<Datagram>))
    requires ValidState(t)
    ensures ValidState(r.1)
    ensures r.0.Pass? <==> ModeError(connected, dest) == None && Frame(t, dgram, bytes, reliable).Ok?
    ensures r.0.Fail? ==> r.1 == t && r.2 == []
    ensures r.0.Pass? ==> var f := Frame(t, dgram, bytes, reliable).value;
      r.1 == f.1 && r.2 == [Datagram(f.0.dgram, f.0.bytes, dest)]
  {
    match ModeError(connected, dest)
    case Some(e) => (Fail(e), t, [])
    case None =>
      match Frame(t, dgram, bytes, reliable)
      case Err(e) => (Fail(e), t, [])
      case Ok((framed, u)) => (Pass, u, [Datagram(framed.dgram, framed.bytes, dest)])
  }

  /** A send refused by the mode guard frames nothing, registers nothing, leaves the
      counter where it was and sends nothing, whether or not it asked for reliability. */
  lemma RejectedSendChangesNothing(t: RegistryState, connected: bool, dgram: seq<byte>, bytes: int,
                                   dest: Option<Endpoint>, reliable: bool)
    requires ValidState(t) && (dest.None? <==> !connected)
    ensures var r := SendStep(t, connected, dgram, bytes, dest, reliable);
      && r.0 == Fail(if connected then AlreadyConnected else NotConnected)
      && r.1 == t
      && r.2 == []
  {
  }

  /** An unreliable send in the right mode gives the socket the payload behind one
      zero byte and one more byte of length, and leaves the registry alone. */
  lemma UnreliableSendFramesOnce(t: RegistryState, connected: bool, dgram: seq<byte>, bytes: int,
                                 dest: Option<Endpoint>)
    requires ValidState(t) && (dest.None? <==> connected)
    ensures SendStep(t, connected, dgram, bytes, dest, false)
         == (Pass, t, [Datagram([0] + dgram, bytes + 1, dest)])
  {
    FrameUnreliable(t, dgram, bytes);
  }

  /** A reliable send in the right mode with a free counter `s` gives the socket the
      payload behind `[0xC0, s]` with two more bytes of length, and registers exactly
      those bytes under `s`, with the connected-mode resend action even for an
      addressed send. */
  lemma ReliableSendRegisters(t: RegistryState, connected: bool, dgram: seq<byte>, bytes: int,
                              dest: Option<Endpoint>)
    requires ValidState(t) && (dest.None? <==> connected)
    requires t.sequenceNum !in Pending(t)
    ensures var s := t.sequenceNum;
      var r := SendStep(t, connected, dgram, bytes, dest, true);
      && r.0 == Pass
      && r.2 == [Datagram([0xC0, s] + dgram, bytes + 2, dest)]
      && Pending(r.1) == Pending(t) + {s}
      && r.1.packetTemp[s] == [0xC0, s] + dgram
      && r.1.resendTimers[s] == Timer(true, ResendToPeer)
      && r.1.sequenceNum == Next(s)
  {
    FrameReliable(t, dgram, bytes);
  }

  /** A reliable send while the counter is still pending fails with nothing sent. */
  lemma ReliableSendInUse(t: RegistryState, connected: bool, dgram: seq<byte>, bytes: int,
                          dest: Option<Endpoint>)
    requires ValidState(t) && (dest.None? <==> connected)
    requires t.sequenceNum in Pending(t)
    ensures SendStep(t, connected, dgram, bytes, dest, true) == (Fail(SequenceInUse), t, [])
  {
    FrameReliableInUse(t, dgram, bytes);
  }

  class ReliableUdpClient {
    /** The base `UdpClient`. */
    const socket: UdpSocket
    const controller: ReliabilityController

    ghost predicate Valid()
      reads this, controller, controller.resendManager
    {
      controller.socket == socket && controller.Valid()
    }

    /** A client over a fresh socket, connected to a fixed peer or not. */
    constructor (connected: bool, inbox: seq<Incoming>)
      ensures Valid() && fresh(socket) && fresh(controller) && fresh(controller.resendManager)
      ensures socket.connected == connected && socket.inbox == inbox && socket.sent == []
      ensures controller.resendManager.State() == Initial()
    {
      var s := new UdpSocket(connected, inbox);
      socket := s;
      controller := new ReliabilityController(s);
    }

    /** `Send(dgram, bytes, reliable)`; `SendAsync` and `BeginSend` with a `reliable`
        argument do the same before their asynchronous hand-off. */
    method Send(dgram: seq<byte>, bytes: int, reliable: bool) returns (r: Outcome)
      requires Valid()
      modifies socket, controller.resendManager
      ensures Valid() && socket.inbox == old(socket.inbox)
      ensures var spec := SendStep(old(controller.resendManager.State()), socket.connected, dgram, bytes, None, reliable);
        && r == spec.0
        && controller.resendManager.State() == spec.1
        && socket.sent == old(socket.sent) + spec.2
    {
      if !socket.connected {
        return Fail(NotConnected);
      }
      var framed := controller.AddReliable(dgram, bytes, reliable);
      if framed.Err? {
        return Fail(framed.error);
      }
      r := socket.Send(framed.value.dgram, framed.value.bytes);
    }

    /** `Send(dgram, bytes, endPoint, reliable)`; the addressed `SendAsync` and
        `BeginSend` with a `reliable` argument do the same. */
    method SendTo(dgram: seq<byte>, bytes: int, endPoint: Endpoint, reliable: bool) returns (r: Outcome)
      requires Valid()
      modifies socket, controller.resendManager
      ensures Valid() && socket.inbox == old(socket.inbox)
      ensures var spec := SendStep(old(controller.resendManager.State()), socket.connected, dgram, bytes, Some(endPoint), reliable);
        && r == spec.0
        && controller.resendManager.State() == spec.1
        && socket.sent == old(socket.sent) + spec.2
    {
      if socket.connected {
        return Fail(AlreadyConnected);
      }
      var framed := controller.AddReliable(dgram, bytes, reliable);
      if framed.Err? {
        return Fail(framed.error);
      }
      r := socket.SendTo(framed.value.dgram, framed.value.bytes, endPoint);
    }

    /** `Send(dgram, bytes)`, hiding the base method, and its `SendAsync` and
        `BeginSend` counterparts: always the unreliable framing. */
    method SendUnreliable(dgram: seq<byte>, bytes: int) returns (r: Outcome)
      requires Valid()
      modifies socket, controller.resendManager
      ensures Valid() && socket.inbox == old(socket.inbox)
      ensures var spec := SendStep(old(controller.resendManager.State()), socket.connected, dgram, bytes, None, false);
        && r == spec.0
        && controller.resendManager.State() == spec.1
        && socket.sent == old(socket.sent) + spec.2
    {
      r := Send(dgram, bytes, false);
    }

    /** `Send(dgram, bytes, endPoint)`, hiding the base method, and its `SendAsync`
        and `BeginSend` counterparts: always the unreliable framing. */
    method SendToUnreliable(dgram: seq<byte>, bytes: int, endPoint: Endpoint) returns (r: Outcome)
      requires Valid()
      modifies socket, controller.resendManager
      ensures Valid() && socket.inbox == old(socket.inbox)
      ensures var spec := SendStep(old(controller.resendManager.State()), socket.connected, dgram, bytes, Some(endPoint), false);
        && r == spec.0
        && controller.resendManager.State() == spec.1
        && socket.sent == old(socket.sent) + spec.2
    {
      r := SendTo(dgram, bytes, endPoint, false);
    }

    /** `Receive(ref endPoint)`: the controller's loop, in either socket mode. */
    method Receive() returns (r: Result<Incoming>)
      requires Valid()
      modifies socket, controller.resendManager
      ensures Valid()
      ensures var spec := ReceiveLoop(old(controller.resendManager.State()), socket.connected, old(socket.inbox), old(socket.sent));
        && r == spec.result
        && controller.resendManager.State() == spec.state
        && socket.sent == spec.sent
        && socket.inbox == spec.inbox
    {
      r := controller.RealizableReceive();
    }

    /** `ReceiveAsync()`: refused on an unconnected socket before anything is read,
        otherwise the controller's loop. */
    method ReceiveAsync() returns (r: Result<Incoming>)
      requires Valid()
      modifies socket, controller.resendManager
      ensures Valid()
      ensures !socket.connected ==>
        && r == Err(NotConnected)
        && controller.resendManager.State() == old(controller.resendManager.State())
        && socket.sent == old(socket.sent) && socket.inbox == old(socket.inbox)
      ensures socket.connected ==>
        var spec := ReceiveLoop(old(controller.resendManager.State()), true, old(socket.inbox), old(socket.sent));
        && r == spec.result
        && controller.resendManager.State() == spec.state
        && socket.sent == spec.sent
        && socket.inbox == spec.inbox
    {
      if !socket.connected {
        return Err(NotConnected);
      }
      r := controller.RealizableReceive();
    }
  }
}
