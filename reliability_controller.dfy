/** The reliability controller (`ReliabilityController`): it frames outgoing
    payloads, classifies incoming datagrams (deliver, acknowledge, or swallow an
    acknowledgement and release its sequence number), and resends what its
    timers ask for. The step functions first describe each operation on values;
    the class below performs it on the socket and the registry objects. */
module Reliability {
  import opened Common
  import opened Wire
  import opened Transport
  import opened Sequencing

  /** A framed buffer and the length that goes with it (the `ref` pair of `AddReliable`). */
  datatype Framed = Framed(dgram: seq<byte>, bytes: int)

  /** What `DetectReliableHeader` returns (suppress?, buffer), the registry afterwards,
      and the datagrams it wrote. */
  datatype Step = Step(result: Result<(bool, seq<byte>)>, state: RegistryState, sent: seq<Datagram>)

  /** What the receive loop returns, the registry and send log afterwards, and
      the datagrams still waiting. */
  datatype Received = Received(result: Result<Incoming>, state: RegistryState, sent: seq<Datagram>, inbox: seq<Incoming>)

  // ---------------------------------------------------------------------------
  // Sending

  /** `AddReliable` on values. A reliable frame is registered with the connected-mode
      resend action, whichever kind of send asked for it. */
  function Frame(t: RegistryState, dgram: seq<byte>, bytes: int, reliable: bool): (r: Result<(Framed, RegistryState)>)
    requires ValidState(t)
    ensures r.Ok? ==> ValidState(r.value.1)
  {
    if reliable then
      var framed := AddReliableHeader(dgram, SeqHeader, t.sequenceNum);
      match Register(t, framed, ResendToPeer)
      case Err(e) => Err(e)
      case Ok(u) => Ok((Framed(framed, bytes + 2), u))
    else Ok((Framed(AddUnreliableHeader(dgram), bytes + 1), t))
  }

  /** Unreliable framing: a zero byte in front, one more byte, the registry untouched. */
  lemma FrameUnreliable(t: RegistryState, dgram: seq<byte>, bytes: int)
    requires ValidState(t)
    ensures Frame(t, dgram, bytes, false) == Ok((Framed([0] + dgram, bytes + 1), t))
  {
  }

  /** Reliable framing with a free counter `s`: `[0xC0, s]` in front, two more bytes,
      and exactly those framed bytes registered under `s` for connected-mode resending. */
  lemma FrameReliable(t: RegistryState, dgram: seq<byte>, bytes: int)
    requires ValidState(t) && t.sequenceNum !in Pending(t)
    ensures var s := t.sequenceNum;
      var r := Frame(t, dgram, bytes, true);
      && r.Ok?
      && r.value.0 == Framed([0xC0, s] + dgram, bytes + 2)
      && Pending(r.value.1) == Pending(t) + {s}
      && r.value.1.packetTemp[s] == [0xC0, s] + dgram
      && r.value.1.resendTimers[s] == Timer(true, ResendToPeer)
      && r.value.1.resendStatistics[s] == 0
      && r.value.1.sequenceNum == Next(s)
  {
  }

  /** Reliable framing while the counter is still pending fails and registers nothing. */
  lemma FrameReliableInUse(t: RegistryState, dgram: seq<byte>, bytes: int)
    requires ValidState(t) && t.sequenceNum in Pending(t)
    ensures Frame(t, dgram, bytes, true) == Err(SequenceInUse)
  {
  }

  // ---------------------------------------------------------------------------
  // Receiving

  /** The acknowledgement of `s`: to the fixed peer on a connected socket, else to `source`. */
  function AckDatagram(s: byte, connected: bool, source: Endpoint): Datagram
  {
    Datagram(AckFrame(s), 2, if connected then None else Some(source))
  }

  /** `DetectReliableHeader` on values: deliver, acknowledge and deliver, or release
      and swallow. An acknowledgement is the only side effect on the socket and a
      release the only one on the registry, and the two never occur together. */
  function Detect(t: RegistryState, connected: bool, dgram: seq<byte>, source: Endpoint): (r: Step)
    requires ValidState(t)
    ensures ValidState(r.state)
    ensures |r.sent| <= 1
    ensures r.sent != [] ==> r.state == t && r.result.Ok? && !r.result.value.0
    ensures r.state != t ==> r.sent == [] && r.result.Ok? && r.result.value.0
    ensures r.result.Err? ==> r.state == t && r.sent == []
    ensures r.result.Ok? ==> Classify(dgram).Ok? && r.result.value.1 == Classify(dgram).value.payload
    ensures r.result.Ok? ==> (r.result.value.0 <==> Classify(dgram).value.Release?)
    ensures r.result.Ok? && r.result.value.0 ==> Remove(t, Classify(dgram).value.seqNum) == Ok(r.state)
  {
    match Classify(dgram)
    case Err(e) => Step(Err(e), t, [])
    case Ok(Deliver(p)) => Step(Ok((false, p)), t, [])
    case Ok(DeliverAndAck(p, s)) => Step(Ok((false, p)), t, [AckDatagram(s, connected, source)])
    case Ok(Release(p, s)) =>
      match Remove(t, s)
      case Err(e) => Step(Err(e), t, [])
      case Ok(u) => Step(Ok((true, p)), u, [])
  }

  /** An unreliably framed payload arrives whole, with no side effect. */
  lemma DetectUnreliable(t: RegistryState, connected: bool, p: seq<byte>, source: Endpoint)
    requires ValidState(t)
    ensures Detect(t, connected, AddUnreliableHeader(p), source) == Step(Ok((false, p)), t, [])
  {
    UnreliableRoundTrip(p);
  }

  /** A reliably framed payload arrives whole and is answered by exactly one
      acknowledgement `[0xA0, s]`, to the peer or to the source by socket mode. */
  lemma DetectReliable(t: RegistryState, connected: bool, p: seq<byte>, s: byte, source: Endpoint)
    requires ValidState(t)
    ensures Detect(t, connected, [0xC0, s] + p, source)
         == Step(Ok((false, p)), t, [Datagram([0xA0, s], 2, if connected then None else Some(source))])
  {
    ReliableRoundTrip(p, s);
  }

  /** The acknowledgement of a pending `s` is swallowed, releases `s`, and sends nothing. */
  lemma DetectAckReleases(t: RegistryState, connected: bool, s: byte, source: Endpoint)
    requires ValidState(t) && s in Pending(t)
    ensures var r := Detect(t, connected, [0xA0, s], source);
      && r.result == Ok((true, []))
      && r.sent == []
      && Pending(r.state) == Pending(t) - {s}
      && r.state.sequenceNum == t.sequenceNum
  {
    AckRoundTrip(s);
  }

  /** A second acknowledgement of the same number (no longer pending) makes the
      classifier fail at the timer-dictionary indexer. */
  lemma DetectDuplicateAck(t: RegistryState, connected: bool, s: byte, source: Endpoint)
    requires ValidState(t) && s !in Pending(t)
    ensures Detect(t, connected, [0xA0, s], source) == Step(Err(KeyNotFound), t, [])
  {
    AckRoundTrip(s);
  }

  /** A header with `Seq` and `Ack` both set is acknowledged and delivered; nothing is released. */
  lemma DetectSeqAndAck(t: RegistryState, connected: bool, b: byte, s: byte, p: seq<byte>, source: Endpoint)
    requires ValidState(t)
    requires HasFlag(b, Realizable) && HasFlag(b, Seq) && HasFlag(b, Ack)
    ensures Detect(t, connected, [b, s] + p, source) == Step(Ok((false, p)), t, [AckDatagram(s, connected, source)])
  {
    SeqWinsOverAck(b, s, p);
  }

  /** A reliable header with neither `Seq` nor `Ack` loses two bytes, with no side effect. */
  lemma DetectNeitherKind(t: RegistryState, connected: bool, b: byte, s: byte, p: seq<byte>, source: Endpoint)
    requires ValidState(t)
    requires HasFlag(b, Realizable) && !HasFlag(b, Seq) && !HasFlag(b, Ack)
    ensures Detect(t, connected, [b, s] + p, source) == Step(Ok((false, p)), t, [])
  {
    ReliableWithoutKind(b, s, p);
  }

  /** `RealizableReceive` on values: classify datagrams in arrival order until one is
      not swallowed; a failure of the socket or of the classifier ends the loop. */
  function ReceiveLoop(t: RegistryState, connected: bool, inbox: seq<Incoming>, sent: seq<Datagram>): (r: Received)
    requires ValidState(t)
    ensures ValidState(r.state)
    ensures |r.inbox| <= |inbox|
    ensures r.result.Ok? ==> |r.inbox| < |inbox|
    decreases |inbox|
  {
    if inbox == [] then Received(Err(TransportClosed), t, sent, [])
    else
      var step := Detect(t, connected, inbox[0].data, inbox[0].source);
      if step.result.Err? then Received(Err(step.result.error), step.state, sent + step.sent, inbox[1..])
      else if step.result.value.0 then ReceiveLoop(step.state, connected, inbox[1..], sent + step.sent)
      else Received(Ok(Incoming(step.result.value.1, inbox[0].source)), step.state, sent + step.sent, inbox[1..])
  }

  /** The datagram is an acknowledgement the classifier swallows. */
  ghost predicate IsAck(x: Incoming)
  {
    Classify(x.data).Ok? && Classify(x.data).value.Release?
  }

  /** The sequence numbers the acknowledgements among `xs` carry. */
  ghost function Released(xs: seq<Incoming>): set<byte>
  {
    if xs == [] then {}
    else if IsAck(xs[0]) then {Classify(xs[0].data).value.seqNum} + Released(xs[1..])
    else Released(xs[1..])
  }

  /** The reply `Detect` sends for a datagram that is not swallowed: one acknowledgement
      exactly when it asked for one. */
  function Reply(x: Incoming, connected: bool): seq<Datagram>
    requires Classify(x.data).Ok?
  {
    match Classify(x.data).value
    case DeliverAndAck(_, s) => [AckDatagram(s, connected, x.source)]
    case _ => []
  }

  /** A swallowed acknowledgement at the head of the inbox is released and the loop goes on. */
  lemma ReceiveSkipsAck(t: RegistryState, connected: bool, inbox: seq<Incoming>, sent: seq<Datagram>)
    requires ValidState(t) && inbox != [] && IsAck(inbox[0])
    requires Classify(inbox[0].data).value.seqNum in Pending(t)
    ensures ReceiveLoop(t, connected, inbox, sent)
         == ReceiveLoop(Remove(t, Classify(inbox[0].data).value.seqNum).value, connected, inbox[1..], sent)
  {
    var step := Detect(t, connected, inbox[0].data, inbox[0].source);
    assert step.result.Ok? && step.result.value.0;
    assert step.sent == [] && sent + step.sent == sent;
    assert step.state == Remove(t, Classify(inbox[0].data).value.seqNum).value;
  }

  /** A receive succeeds only on a datagram the classifier accepts, and skips an
      acknowledgement only when its number is pending. */
  lemma ReceiveOkHead(t: RegistryState, connected: bool, inbox: seq<Incoming>, sent: seq<Datagram>)
    requires ValidState(t) && ReceiveLoop(t, connected, inbox, sent).result.Ok?
    ensures inbox != [] && Classify(inbox[0].data).Ok?
    ensures IsAck(inbox[0]) ==> Classify(inbox[0].data).value.seqNum in Pending(t)
  {
    var step := Detect(t, connected, inbox[0].data, inbox[0].source);
    assert step.result.Ok?;
  }

  /** A datagram at the head of the inbox that is not swallowed ends the loop: it is
      returned stripped, with its source, after its acknowledgement if it asked for one. */
  lemma ReceiveStops(t: RegistryState, connected: bool, inbox: seq<Incoming>, sent: seq<Datagram>)
    requires ValidState(t) && inbox != []
    requires Classify(inbox[0].data).Ok? && !IsAck(inbox[0])
    ensures ReceiveLoop(t, connected, inbox, sent)
         == Received(Ok(Incoming(Classify(inbox[0].data).value.payload, inbox[0].source)),
                     t, sent + Reply(inbox[0], connected), inbox[1..])
  {
    var step := Detect(t, connected, inbox[0].data, inbox[0].source);
    assert step.result.Ok? && !step.result.value.0;
    assert step.sent == Reply(inbox[0], connected);
  }

  /** The loop only ever takes datagrams from the front: what is left is a suffix of the inbox. */
  lemma {:induction false} ReceiveTakesFromFront(t: RegistryState, connected: bool, inbox: seq<Incoming>, sent: seq<Datagram>)
    requires ValidState(t)
    ensures var r := ReceiveLoop(t, connected, inbox, sent);
      r.inbox == inbox[|inbox| - |r.inbox|..]
    decreases |inbox|
  {
    if inbox != [] {
      var step := Detect(t, connected, inbox[0].data, inbox[0].source);
      if step.result.Ok? && step.result.value.0 {
        ReceiveTakesFromFront(step.state, connected, inbox[1..], sent + step.sent);
        var r := ReceiveLoop(step.state, connected, inbox[1..], sent + step.sent);
        assert inbox[1..][|inbox| - 1 - |r.inbox|..] == inbox[|inbox| - |r.inbox|..];
      }
    }
  }

  /** Every datagram a successful receive passes over is an acknowledgement. */
  lemma {:induction false} ReceiveSkipsOnlyAcks(t: RegistryState, connected: bool, inbox: seq<Incoming>, sent: seq<Datagram>)
    requires ValidState(t)
    ensures var r := ReceiveLoop(t, connected, inbox, sent);
      var i := |inbox| - |r.inbox| - 1;
      r.result.Ok? ==> 0 <= i < |inbox| && forall j :: 0 <= j < i ==> IsAck(inbox[j])
    decreases |inbox|
  {
    if ReceiveLoop(t, connected, inbox, sent).result.Ok? {
      ReceiveOkHead(t, connected, inbox, sent);
      if !IsAck(inbox[0]) {
        ReceiveStops(t, connected, inbox, sent);
      } else {
        ReceiveSkipsAck(t, connected, inbox, sent);
        var u := Remove(t, Classify(inbox[0].data).value.seqNum).value;
        ReceiveSkipsOnlyAcks(u, connected, inbox[1..], sent);
        var r := ReceiveLoop(u, connected, inbox[1..], sent);
        if r.result.Ok? {
          var i := |inbox| - |r.inbox| - 1;
          assert forall j :: 1 <= j < i ==> inbox[j] == inbox[1..][j - 1];
        }
      }
    }
  }

  /** A successful receive returns the stripped payload and source of the first datagram
      that is not an acknowledgement, and the only datagram it sends is the
      acknowledgement of that datagram, if it asked for one. */
  lemma {:induction false} ReceiveFirstNonAck(t: RegistryState, connected: bool, inbox: seq<Incoming>, sent: seq<Datagram>)
    requires ValidState(t)
    ensures var r := ReceiveLoop(t, connected, inbox, sent);
      var i := |inbox| - |r.inbox| - 1;
      r.result.Ok? ==>
        && 0 <= i < |inbox|
        && Classify(inbox[i].data).Ok?
        && !IsAck(inbox[i])
        && r.result.value == Incoming(Classify(inbox[i].data).value.payload, inbox[i].source)
        && r.sent == sent + Reply(inbox[i], connected)
    decreases |inbox|
  {
    if ReceiveLoop(t, connected, inbox, sent).result.Ok? {
      ReceiveOkHead(t, connected, inbox, sent);
      if !IsAck(inbox[0]) {
        ReceiveStops(t, connected, inbox, sent);
      } else {
        ReceiveSkipsAck(t, connected, inbox, sent);
        var u := Remove(t, Classify(inbox[0].data).value.seqNum).value;
        ReceiveFirstNonAck(u, connected, inbox[1..], sent);
        var r := ReceiveLoop(u, connected, inbox[1..], sent);
        if r.result.Ok? {
          var i := |inbox| - |r.inbox| - 1;
          assert inbox[i] == inbox[1..][i - 1];
        }
      }
    }
  }

  /** `Released` over a prefix that starts with an acknowledgement. */
  lemma ReleasedFront(xs: seq<Incoming>, i: nat)
    requires 0 < i <= |xs| && IsAck(xs[0])
    ensures Released(xs[..i]) == {Classify(xs[0].data).value.seqNum} + Released(xs[1..][..i - 1])
  {
    assert xs[..i][1..] == xs[1..][..i - 1];
  }

  /** What a successful receive has released: exactly the entries of the numbers the
      acknowledgements before the returned datagram carry; every other entry keeps its
      frame, timer and count, and the counter is untouched. */
  ghost predicate ReleasesSkipped(t: RegistryState, connected: bool, inbox: seq<Incoming>, sent: seq<Datagram>)
    requires ValidState(t)
  {
    var r := ReceiveLoop(t, connected, inbox, sent);
    var i := |inbox| - |r.inbox| - 1;
    r.result.Ok? ==>
      && 0 <= i < |inbox|
      && Pending(r.state) == Pending(t) - Released(inbox[..i])
      && r.state.packetTemp == t.packetTemp - Released(inbox[..i])
      && r.state.resendTimers == t.resendTimers - Released(inbox[..i])
      && r.state.resendStatistics == t.resendStatistics - Released(inbox[..i])
      && r.state.sequenceNum == t.sequenceNum
  }

  /** The inductive step of `ReceiveReleasesAcks`: releasing the head acknowledgement
      and then what the rest of the loop releases is releasing both. */
  lemma ReleasesAfterAck(t: RegistryState, connected: bool, inbox: seq<Incoming>, sent: seq<Datagram>)
    requires ValidState(t) && inbox != [] && IsAck(inbox[0])
    requires Classify(inbox[0].data).value.seqNum in Pending(t)
    requires ReleasesSkipped(Remove(t, Classify(inbox[0].data).value.seqNum).value, connected, inbox[1..], sent)
    ensures ReleasesSkipped(t, connected, inbox, sent)
  {
    ReceiveSkipsAck(t, connected, inbox, sent);
    var s := Classify(inbox[0].data).value.seqNum;
    var u := Remove(t, s).value;
    var r := ReceiveLoop(u, connected, inbox[1..], sent);
    if r.result.Ok? {
      var i := |inbox| - |r.inbox| - 1;
      ReleasedFront(inbox, i);
      var rest := Released(inbox[1..][..i - 1]);
      assert Pending(u) == Pending(t) - {s};
      assert Pending(t) - {s} - rest == Pending(t) - ({s} + rest);
      assert t.packetTemp - {s} - rest == t.packetTemp - ({s} + rest);
      assert t.resendTimers - {s} - rest == t.resendTimers - ({s} + rest);
      assert t.resendStatistics - {s} - rest == t.resendStatistics - ({s} + rest);
    }
  }

  /** The acknowledgements a successful receive skips release exactly their numbers. */
  lemma {:induction false} ReceiveReleasesAcks(t: RegistryState, connected: bool, inbox: seq<Incoming>, sent: seq<Datagram>)
    requires ValidState(t)
    ensures ReleasesSkipped(t, connected, inbox, sent)
    decreases |inbox|
  {
    if ReceiveLoop(t, connected, inbox, sent).result.Ok? {
      ReceiveOkHead(t, connected, inbox, sent);
      if !IsAck(inbox[0]) {
        ReceiveStops(t, connected, inbox, sent);
        assert Released(inbox[..0]) == {};
        assert t.packetTemp - {} == t.packetTemp;
        assert t.resendTimers - {} == t.resendTimers;
        assert t.resendStatistics - {} == t.resendStatistics;
      } else {
        var u := Remove(t, Classify(inbox[0].data).value.seqNum).value;
        ReceiveReleasesAcks(u, connected, inbox[1..], sent);
        ReleasesAfterAck(t, connected, inbox, sent);
      }
    }
  }

  /** An acknowledgement for a number that is no longer pending ends the receive with a failure. */
  lemma ReceiveDuplicateAckFails(t: RegistryState, connected: bool, s: byte, source: Endpoint, rest: seq<Incoming>, sent: seq<Datagram>)
    requires ValidState(t) && s !in Pending(t)
    ensures ReceiveLoop(t, connected, [Incoming([0xA0, s], source)] + rest, sent)
         == Received(Err(KeyNotFound), t, sent, rest)
  {
    var inbox := [Incoming([0xA0, s], source)] + rest;
    DetectDuplicateAck(t, connected, s, source);
    assert inbox[1..] == rest;
  }

  // ---------------------------------------------------------------------------
  // Resending

  /** `Resend(seq)` (connected-mode action) or `Resend(seq, endPoint)` on values. A send
      the socket refuses, and a number no longer pending, are caught and come to nothing. */
  function ResendStep(t: RegistryState, connected: bool, s: byte, action: ResendAction): (r: (RegistryState, seq<Datagram>))
    requires ValidState(t)
    ensures ValidState(r.0)
    ensures ResendData(t, s).Err? ==> r == (t, [])
    ensures ResendData(t, s).Ok? ==> r.0 == ResendData(t, s).value.1
    ensures |r.1| <= 1
    ensures r.1 != [] <==> s in Pending(t) && (action.ResendToPeer? <==> connected)
    ensures r.1 != [] ==>
      r.1[0] == Datagram(t.packetTemp[s], |t.packetTemp[s]|,
                         if action.ResendToPeer? then None else Some(action.endPoint))
  {
    match ResendData(t, s)
    case Err(_) => (t, [])
    case Ok((d, u)) =>
      match action
      case ResendToPeer => (u, if connected then [Datagram(d, |d|, None)] else [])
      case ResendToEndpoint(ep) => (u, if connected then [] else [Datagram(d, |d|, Some(ep))])
  }

  /** The timer of `s` elapsing: an armed timer stops and runs its resend action. */
  function TimerStep(t: RegistryState, connected: bool, s: byte): (r: (RegistryState, seq<Datagram>))
    requires ValidState(t)
    ensures ValidState(r.0)
    ensures s !in Pending(t) ==> r == (t, [])
  {
    var (action, u) := Elapse(t, s);
    match action
    case None => (u, [])
    case Some(a) => ResendStep(u, connected, s, a)
  }

  /** `n` successive elapses of the timer of `s`. */
  function TimerSteps(t: RegistryState, connected: bool, s: byte, n: nat): (r: (RegistryState, seq<Datagram>))
    requires ValidState(t)
    ensures ValidState(r.0)
    decreases n
  {
    if n == 0 then (t, [])
    else
      var first := TimerStep(t, connected, s);
      var rest := TimerSteps(first.0, connected, s, n - 1);
      (rest.0, first.1 + rest.1)
  }

  /** `n` copies of one datagram. */
  function Copies(x: Datagram, n: nat): (r: seq<Datagram>)
    ensures |r| == n && forall k :: 0 <= k < n ==> r[k] == x
  {
    if n == 0 then [] else [x] + Copies(x, n - 1)
  }

  /** One elapse of an armed connected-mode timer: the frame is sent to the peer on a
      connected socket and refused on an unconnected one; either way its count goes up
      and its timer is started again. */
  lemma ResendOnce(t: RegistryState, connected: bool, s: byte)
    requires ValidState(t) && s in Pending(t)
    requires t.resendTimers[s] == Timer(true, ResendToPeer)
    ensures var r := TimerStep(t, connected, s);
      var d := t.packetTemp[s];
      && Pending(r.0) == Pending(t)
      && r.0.packetTemp == t.packetTemp
      && r.0.resendTimers[s] == Timer(true, ResendToPeer)
      && r.0.resendStatistics[s] == t.resendStatistics[s] + 1
      && r.1 == if connected then [Datagram(d, |d|, None)] else []
  {
    var e := Elapse(t, s);
    assert e.0 == Some(ResendToPeer);
    assert TimerStep(t, connected, s) == ResendStep(e.1, connected, s, ResendToPeer);
  }

  /** An unacknowledged packet stays pending however often its connected-mode timer
      elapses: n elapses add n to its count and leave its timer started. */
  lemma {:induction false} ResendsKeepEntry(t: RegistryState, connected: bool, s: byte, n: nat)
    requires ValidState(t) && s in Pending(t)
    requires t.resendTimers[s] == Timer(true, ResendToPeer)
    ensures var u := TimerSteps(t, connected, s, n).0;
      && Pending(u) == Pending(t)
      && u.packetTemp == t.packetTemp
      && u.resendTimers[s] == Timer(true, ResendToPeer)
      && u.resendStatistics[s] == t.resendStatistics[s] + n
    decreases n
  {
    if n == 0 {
      assert TimerSteps(t, connected, s, n) == (t, []);
    } else {
      ResendOnce(t, connected, s);
      var first := TimerStep(t, connected, s);
      ResendsKeepEntry(first.0, connected, s, n - 1);
      assert TimerSteps(t, connected, s, n).0 == TimerSteps(first.0, connected, s, n - 1).0;
    }
  }

  /** On an unconnected socket a connected-mode timer never sends anything, however
      often it elapses. */
  lemma {:induction false} UnconnectedNeverResends(t: RegistryState, s: byte, n: nat)
    requires ValidState(t) && s in Pending(t)
    requires t.resendTimers[s] == Timer(true, ResendToPeer)
    ensures TimerSteps(t, false, s, n).1 == []
    decreases n
  {
    if n == 0 {
      assert TimerSteps(t, false, s, n) == (t, []);
    } else {
      ResendOnce(t, false, s);
      var first := TimerStep(t, false, s);
      UnconnectedNeverResends(first.0, s, n - 1);
      assert TimerSteps(t, false, s, n).1 == first.1 + TimerSteps(first.0, false, s, n - 1).1;
    }
  }

  /** On a connected socket an unacknowledged packet is sent again every time its timer
      elapses, with no cap: n elapses send its stored bytes n times to the peer. */
  lemma {:induction false} ResendsWithoutCap(t: RegistryState, s: byte, n: nat)
    requires ValidState(t) && s in Pending(t)
    requires t.resendTimers[s] == Timer(true, ResendToPeer)
    ensures var d := t.packetTemp[s];
      TimerSteps(t, true, s, n).1 == Copies(Datagram(d, |d|, None), n)
    decreases n
  {
    if n == 0 {
      assert TimerSteps(t, true, s, n) == (t, []);
    } else {
      ResendOnce(t, true, s);
      var first := TimerStep(t, true, s);
      ResendsWithoutCap(first.0, s, n - 1);
      assert TimerSteps(t, true, s, n).1 == first.1 + TimerSteps(first.0, true, s, n - 1).1;
    }
  }

  /** On an unconnected socket a reliable frame is never sent again: its timer carries
      the connected-mode action, whose send the socket refuses. After any number n of
      elapses nothing has been sent, yet the frame is still stored, its count is n and
      its timer is started again. */
  lemma AddressedFrameNeverResent(t: RegistryState, dgram: seq<byte>, bytes: int, n: nat)
    requires ValidState(t) && t.sequenceNum !in Pending(t)
    ensures var s := t.sequenceNum;
      var u := Frame(t, dgram, bytes, true).value.1;
      var (w, out) := TimerSteps(u, false, s, n);
      && out == []
      && s in Pending(w)
      && w.packetTemp[s] == [0xC0, s] + dgram
      && w.resendStatistics[s] == n
      && w.resendTimers[s] == Timer(true, ResendToPeer)
  {
    var s := t.sequenceNum;
    FrameReliable(t, dgram, bytes);
    var u := Frame(t, dgram, bytes, true).value.1;
    ResendsKeepEntry(u, false, s, n);
    UnconnectedNeverResends(u, s, n);
  }

  /** One exchange, as in the protocol's basic scenario: the sender frames the first
      `bytes` bytes of `p` reliably and the network carries the `bytes + 2` bytes the
      socket is given; the receiver delivers those `bytes` bytes and answers with one
      acknowledgement, and that acknowledgement releases the sender's entry, after which
      its timer sends nothing. */
  lemma Exchange(sender: RegistryState, receiver: RegistryState, connected: bool, p: seq<byte>,
                 bytes: int, senderAddr: Endpoint, receiverAddr: Endpoint)
    requires ValidState(sender) && ValidState(receiver)
    requires sender.sequenceNum !in Pending(sender)
    requires 0 <= bytes <= |p|
    ensures var s := sender.sequenceNum;
      var (framed, pending) := Frame(sender, p, bytes, true).value;
      && 0 <= framed.bytes <= |framed.dgram|
      && var atReceiver := Detect(receiver, connected, framed.dgram[..framed.bytes], senderAddr);
      && atReceiver.result == Ok((false, p[..bytes]))
      && atReceiver.state == receiver
      && |atReceiver.sent| == 1
      && 0 <= atReceiver.sent[0].length <= |atReceiver.sent[0].data|
      && var ack := atReceiver.sent[0].data[..atReceiver.sent[0].length];
      && var atSender := Detect(pending, connected, ack, receiverAddr);
      && atSender.result == Ok((true, []))
      && Pending(atSender.state) == Pending(sender)
      && TimerStep(atSender.state, connected, s) == (atSender.state, [])
  {
    var s := sender.sequenceNum;
    FrameReliable(sender, p, bytes);
    var (framed, pending) := Frame(sender, p, bytes, true).value;
    assert framed.dgram[..framed.bytes] == [0xC0, s] + p[..bytes];
    DetectReliable(receiver, connected, p[..bytes], s, senderAddr);
    var atReceiver := Detect(receiver, connected, framed.dgram[..framed.bytes], senderAddr);
    assert atReceiver.sent[0].data[..atReceiver.sent[0].length] == [0xA0, s];
    DetectAckReleases(pending, connected, s, receiverAddr);
  }

  // ---------------------------------------------------------------------------
  // The controller object

  class ReliabilityController {
    /** The client's underlying socket (`udpClient` in the source). */
    const socket: UdpSocket
    /** The registry (`resendManager` in the source). */
    const resendManager: SequenceManager

    ghost predicate Valid()
      reads this, resendManager
    {
      resendManager.Valid()
    }

    constructor (socket: UdpSocket)
      ensures this.socket == socket && fresh(resendManager)
      ensures Valid() && resendManager.State() == Initial()
    {
      this.socket := socket;
      resendManager := new SequenceManager();
    }

    method AddReliable(dgram: seq<byte>, bytes: int, reliable: bool) returns (r: Result<Framed>)
      requires Valid()
      modifies resendManager
      ensures Valid()
      ensures var spec := Frame(old(resendManager.State()), dgram, bytes, reliable);
        if spec.Ok? then r == Ok(spec.value.0) && resendManager.State() == spec.value.1
        else r == Err(spec.error) && resendManager.State() == old(resendManager.State())
    {
      if reliable {
        var framed := AddReliableHeader(dgram, SeqHeader, resendManager.sequenceNum);
        var ok := StartResend(framed);
        if ok.Fail? {
          return Err(ok.error);
        }
        r := Ok(Framed(framed, bytes + 2));
      } else {
        r := Ok(Framed(AddUnreliableHeader(dgram), bytes + 1));
      }
    }

    /** Registers `dgram` with the connected-mode resend action. */
    method StartResend(dgram: seq<byte>) returns (r: Outcome)
      requires Valid()
      modifies resendManager
      ensures Valid()
      ensures var spec := Register(old(resendManager.State()), dgram, ResendToPeer);
        if spec.Ok? then r == Pass && resendManager.State() == spec.value
        else r == Fail(spec.error) && resendManager.State() == old(resendManager.State())
    {
      r := resendManager.RegisterResendEvent(dgram, ResendToPeer);
    }

    /** Registers `dgram` with the resend action addressed to `endPoint`. */
    method StartResendTo(dgram: seq<byte>, endPoint: Endpoint) returns (r: Outcome)
      requires Valid()
      modifies resendManager
      ensures Valid()
      ensures var spec := Register(old(resendManager.State()), dgram, ResendToEndpoint(endPoint));
        if spec.Ok? then r == Pass && resendManager.State() == spec.value
        else r == Fail(spec.error) && resendManager.State() == old(resendManager.State())
    {
      r := resendManager.RegisterResendEvent(dgram, ResendToEndpoint(endPoint));
    }

    method DetectReliableHeader(dgram: seq<byte>, endPoint: Endpoint) returns (r: Result<(bool, seq<byte>)>)
      requires Valid()
      modifies socket, resendManager
      ensures Valid() && socket.inbox == old(socket.inbox)
      ensures var spec := Detect(old(resendManager.State()), socket.connected, dgram, endPoint);
        && r == spec.result
        && resendManager.State() == spec.state
        && socket.sent == old(socket.sent) + spec.sent
    {
      if |dgram| == 0 {
        return Err(IndexOutOfRange);
      }
      if HasFlag(dgram[0], Realizable) {
        if |dgram| < 2 {
          return Err(Overflow);
        }
        var buffer := dgram[2..];
        if HasFlag(dgram[0], Seq) {
          if socket.connected {
            SendAck(dgram[1]);
          } else {
            SendAckTo(dgram[1], endPoint);
          }
          return Ok((false, buffer));
        }
        if HasFlag(dgram[0], Ack) {
          var removed := resendManager.RemoveResendEvent(dgram[1]);
          if removed.Fail? {
            return Err(removed.error);
          }
          return Ok((true, buffer));
        }
        r := Ok((false, buffer));
      } else {
        r := Ok((false, dgram[1..]));
      }
    }

    method SendAck(seqNum: byte)
      requires socket.connected
      modifies socket
      ensures socket.inbox == old(socket.inbox)
      ensures socket.sent == old(socket.sent) + [Datagram(AckFrame(seqNum), 2, None)]
    {
      var ack := AckFrame(seqNum);
      var _ := socket.Send(ack, |ack|);
    }

    method SendAckTo(seqNum: byte, endPoint: Endpoint)
      requires !socket.connected
      modifies socket
      ensures socket.inbox == old(socket.inbox)
      ensures socket.sent == old(socket.sent) + [Datagram(AckFrame(seqNum), 2, Some(endPoint))]
    {
      var ack := AckFrame(seqNum);
      var _ := socket.SendTo(ack, |ack|, endPoint);
    }

    method RealizableReceive() returns (r: Result<Incoming>)
      requires Valid()
      modifies socket, resendManager
      ensures Valid()
      ensures var spec := ReceiveLoop(old(resendManager.State()), socket.connected, old(socket.inbox), old(socket.sent));
        && r == spec.result
        && resendManager.State() == spec.state
        && socket.sent == spec.sent
        && socket.inbox == spec.inbox
    {
      while true
        invariant Valid()
        invariant ReceiveLoop(old(resendManager.State()), socket.connected, old(socket.inbox), old(socket.sent))
               == ReceiveLoop(resendManager.State(), socket.connected, socket.inbox, socket.sent)
        decreases |socket.inbox|
      {
        ghost var before := resendManager.State();
        ghost var pending := socket.inbox;
        ghost var log := socket.sent;
        var received := socket.Receive();
        if received.Err? {
          return Err(received.error);
        }
        var result := received.value;
        var detected := DetectReliableHeader(result.data, result.source);
        assert pending[1..] == socket.inbox;
        if detected.Err? {
          return Err(detected.error);
        }
        if detected.value.0 {
          continue;
        }
        return Ok(Incoming(detected.value.1, result.source));
      }
    }

    /** The connected-mode resend action. */
    method Resend(seqNum: byte)
      requires Valid()
      modifies socket, resendManager
      ensures Valid() && socket.inbox == old(socket.inbox)
      ensures var spec := ResendStep(old(resendManager.State()), socket.connected, seqNum, ResendToPeer);
        resendManager.State() == spec.0 && socket.sent == old(socket.sent) + spec.1
    {
      var dgram := resendManager.GetResendData(seqNum);
      if dgram.Ok? {
        var _ := socket.Send(dgram.value, |dgram.value|);
      }
    }

    /** The resend action addressed to `endPoint`. */
    method ResendTo(seqNum: byte, endPoint: Endpoint)
      requires Valid()
      modifies socket, resendManager
      ensures Valid() && socket.inbox == old(socket.inbox)
      ensures var spec := ResendStep(old(resendManager.State()), socket.connected, seqNum, ResendToEndpoint(endPoint));
        resendManager.State() == spec.0 && socket.sent == old(socket.sent) + spec.1
    {
      var dgram := resendManager.GetResendData(seqNum);
      if dgram.Ok? {
        var _ := socket.SendTo(dgram.value, |dgram.value|, endPoint);
      }
    }

    /** The timer of `seqNum` elapsing, as a step the environment may take at any time. */
    method TimerElapsed(seqNum: byte)
      requires Valid()
      modifies socket, resendManager
      ensures Valid() && socket.inbox == old(socket.inbox)
      ensures var spec := TimerStep(old(resendManager.State()), socket.connected, seqNum);
        resendManager.State() == spec.0 && socket.sent == old(socket.sent) + spec.1
    {
      var action := resendManager.Elapsed(seqNum);
      match action
      case None =>
      case Some(ResendToPeer) => Resend(seqNum);
      case Some(ResendToEndpoint(endPoint)) => ResendTo(seqNum, endPoint);
    }
  }
}
