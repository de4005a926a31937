# SimpleReliableUdp in Dafny

This project models the core of SimpleReliableUdp, a C# library that adds optional
reliability on top of a plain UDP socket. A `ReliableUdpClient` derives from the
platform's `UdpClient`. Each outgoing payload gets a header:

- An unreliable payload gets one zero byte in front.
- A reliable payload gets two bytes in front: the flag byte `Realizable | Seq`
  (`0xC0`) and a one-byte sequence number.

The sender keeps a copy of each reliable frame in a `SequenceManager`. A one-shot
30 ms timer resends that copy until an acknowledgement `[Realizable | Ack, seq]`
(`[0xA0, seq]`) comes back.

The receiver handles each datagram in one of three ways:

- It strips the header.
- It acknowledges frames that carry `Seq`.
- It swallows acknowledgements. Each swallowed acknowledgement releases the sender's
  stored copy and stops its timer.

The files:

- `common.dfy` (module `Common`): bytes, endpoints, and the error and result types.
  Every exception the C# code throws becomes a named `Error` here:
  - `IndexOutOfRange` and `Overflow` for a short datagram;
  - `SequenceInUse` when the counter's current number is still pending, however
    few other numbers are (`StaleEntryBlocksAfterWrap`);
  - `KeyNotFound` for a missing dictionary key;
  - `NotConnected` and `AlreadyConnected` for the socket-mode guards.
- `transport.dfy` (module `Transport`): the base `UdpClient`, reduced to what the
  layer observes:
  - whether the socket is connected to a fixed peer;
  - the log of datagrams it was given to send;
  - the queue of datagrams the network will deliver.

  The platform refuses a connected-mode send on an unconnected socket and an
  addressed send on a connected one. An empty queue stands for a socket that has
  been closed.
- `wire.dfy` (module `Wire`): the header layout and the classification that
  `DetectReliableHeader` makes, as pure functions, with round-trip lemmas.
- `sequence_manager.dfy` (module `Sequencing`): the registry.
  - It is a value `RegistryState`, made of the wrapping byte counter and the three
    dictionaries, with operations `Register`, `Remove`, `ResendData` and `Elapse`
    on it.
  - The class `SequenceManager` has the same four fields. Its methods are proved
    to perform those operations on its fields.
  - Each timer becomes an "armed" flag and the resend action it calls.
  - A timer firing becomes the explicit step `Elapse`.
- `reliability_controller.dfy` (module `Reliability`): the controller.
  - Each operation is first a step function on values:
    - `Frame` for `AddReliable`;
    - `Detect` for `DetectReliableHeader`;
    - `ReceiveLoop` for `RealizableReceive`;
    - `ResendStep` and `TimerStep` for the resend actions.
  - The class `ReliabilityController` then performs each step on the socket and
    registry objects. Its receive loop is a `while` loop proved against
    `ReceiveLoop`.
- `reliable_udp_client.dfy` (module `Client`): the client's overloads.
  - Each overload checks the socket mode, frames the payload and hands the framed
    bytes to the base socket.
  - Receiving runs the controller's loop.
  - `SendStep` describes one send on values. The class `ReliableUdpClient` is
    proved against it.

Some behaviour of the code is kept as written, where a reader might expect
otherwise:

1. A reliable send always registers the connected-mode resend action, even when
   it goes to an explicit endpoint. On an unconnected socket, such a frame is
   therefore never sent again, however often its timer fires
   (`AddressedFrameNeverResent`). Its count still goes up and its timer still
   restarts.
2. The classifier tests `Seq` before `Ack`. A header with both bits set is
   delivered and acknowledged, and nothing is released.
3. A datagram that is too short is not dropped. It makes the receive fail
   (`IndexOutOfRange` or `Overflow`), and so does an acknowledgement whose number
   is no longer pending (`KeyNotFound`, for example after a duplicate
   acknowledgement).
4. A receive therefore fails in more cases than a failure of the transport.

## Model

| member | source | states |
|---|---|---|
| `Wire.AddReliableHeader` | ReliableUdp/ReliableUdp/ReliabilityController.cs:160-168 | the result is the payload behind exactly two bytes: the given flags, then the sequence number |
| `Wire.AddUnreliableHeader` | ReliableUdp/ReliableUdp/ReliabilityController.cs:63-70 | the result is the payload behind a single zero byte |
| `Wire.AckFrame` | ReliableUdp/ReliableUdp/ReliabilityController.cs:210-214 | an acknowledgement is the flag byte 0xA0 (Realizable with Ack) and the number, with no payload |
| `Wire.Classify` | ReliableUdp/ReliableUdp/ReliabilityController.cs:176-204 | an empty datagram fails with IndexOutOfRange; bit 7 with one byte fails with Overflow; success iff the header fits; payload is what follows a 2-byte header (bit 7 set) or a 1-byte header; acknowledge iff Realizable and Seq; release iff Realizable, not Seq, and Ack; the number is the second byte |
| `Wire.UnreliableRoundTrip` | ReliableUdp/ReliableUdp/ReliabilityController.cs:198-203 | classifying an unreliable frame gives back its payload, with nothing to acknowledge |
| `Wire.ReliableRoundTrip` | ReliableUdp/ReliableUdp/ReliabilityController.cs:178-190 | classifying a reliable frame gives back its payload and asks to acknowledge its number |
| `Wire.AckRoundTrip` | ReliableUdp/ReliableUdp/ReliabilityController.cs:191-196 | an acknowledgement is classified as the release of its number, with an empty payload |
| `Wire.SeqWinsOverAck` | ReliableUdp/ReliableUdp/ReliabilityController.cs:182-196 | a header with both Seq and Ack is delivered and acknowledged, never released |
| `Wire.ReliableWithoutKind` | ReliableUdp/ReliableUdp/ReliabilityController.cs:178-203 | a Realizable header with neither Seq nor Ack loses two bytes and has no side effect |
| `Wire.FlagsIgnoredWithoutRealizable` | ReliableUdp/ReliableUdp/ReliabilityController.cs:198-203 | without bit 7 only one byte is stripped, whatever the other bits say |
| `Sequencing.Initial` | ReliableUdp/ReliableUdp/SequenceManager.cs:41-47 | a new registry has counter 0, nothing pending, and consistent dictionaries |
| `Sequencing.Next` | ReliableUdp/ReliableUdp/SequenceManager.cs:74 | the byte counter goes up by one and 255 wraps to 0 |
| `Sequencing.Register` | ReliableUdp/ReliableUdp/SequenceManager.cs:56-77 | fails with SequenceInUse iff the counter's number is pending; otherwise adds exactly that number, storing the frame, an armed timer with the given action and count 0, advances the counter, keeps every other entry and the key invariant |
| `Sequencing.Remove` | ReliableUdp/ReliableUdp/SequenceManager.cs:83-90 | fails with KeyNotFound iff the number is not pending; otherwise removes exactly that number from all three dictionaries, counter and other entries unchanged |
| `Sequencing.ResendData` | ReliableUdp/ReliableUdp/SequenceManager.cs:96-102 | fails with KeyNotFound iff the number is not pending; otherwise returns the stored frame, adds one to its count, re-arms its timer with the same action, changes nothing else |
| `Sequencing.Elapse` | ReliableUdp/ReliableUdp/SequenceManager.cs:66-71 | a one-shot timer fires iff its number is pending and it is armed; firing disarms it and yields its action; nothing else changes |
| `Sequencing.PendingAtMost256` | ReliableUdp/ReliableUdp/SequenceManager.cs:22 | at most 256 numbers can be pending at once |
| `Sequencing.FullRegistryRejects` | ReliableUdp/ReliableUdp/SequenceManager.cs:58-63 | with all 256 numbers pending, registration fails with SequenceInUse |
| `Sequencing.RegisterAll` | ReliableUdp/ReliableUdp/SequenceManager.cs:56-77 | a run of registrations without removals keeps the three dictionaries on the same keys |
| `Sequencing.RegisterFromInitial` | ReliableUdp/ReliableUdp/SequenceManager.cs:58-74 | from a new registry the first n <= 256 registrations succeed, leaving exactly numbers 0..n-1 pending and the counter at n mod 256 |
| `Sequencing.ExhaustedAfter256` | ReliableUdp/ReliableUdp/SequenceManager.cs:58-63 | the 257th registration without a removal fails with SequenceInUse |
| `Sequencing.AckedRound` | ReliableUdp/ReliableUdp/SequenceManager.cs:56-90 | registering a frame and then removing the number it took keeps the registry invariant |
| `Sequencing.AckedRounds` | ReliableUdp/ReliableUdp/SequenceManager.cs:56-90 | any number of register-then-acknowledge rounds keeps the registry invariant |
| `Sequencing.AckedRoundRestores` | ReliableUdp/ReliableUdp/SequenceManager.cs:56-90 | when the counter's number is free, a register-then-acknowledge round succeeds and leaves the three dictionaries exactly as they were, with only the counter advanced by one |
| `Sequencing.Advance` | ReliableUdp/ReliableUdp/SequenceManager.cs:74 | n increments of the byte counter give (s + n) mod 256 |
| `Sequencing.AckedRoundsAdvance` | ReliableUdp/ReliableUdp/SequenceManager.cs:56-90 | if none of the next n counter values is pending, n register-then-acknowledge rounds all succeed, leave the dictionaries unchanged and advance the counter by n mod 256 |
| `Sequencing.StaleEntryBlocksAfterWrap` | ReliableUdp/ReliableUdp/SequenceManager.cs:58-63 | one unacknowledged frame (number 0) followed by 255 acknowledged ones leaves a single number pending and the counter back at 0, and the next registration fails with SequenceInUse |
| `Sequencing.SequenceManager.constructor` | ReliableUdp/ReliableUdp/SequenceManager.cs:41-47 | the new object holds the initial registry |
| `Sequencing.SequenceManager.RegisterResendEvent` | ReliableUdp/ReliableUdp/SequenceManager.cs:56-77 | the fields become `Register` of the old state, or stay unchanged with the failure reported |
| `Sequencing.SequenceManager.RemoveResendEvent` | ReliableUdp/ReliableUdp/SequenceManager.cs:83-90 | the fields become `Remove` of the old state, or stay unchanged with KeyNotFound reported |
| `Sequencing.SequenceManager.GetResendData` | ReliableUdp/ReliableUdp/SequenceManager.cs:96-102 | returns the stored frame and moves the fields to `ResendData` of the old state, or fails with them unchanged |
| `Sequencing.SequenceManager.Elapsed` | ReliableUdp/ReliableUdp/SequenceManager.cs:66-71 | the timer event returns the action and moves the fields as `Elapse` says |
| `Reliability.Frame` | ReliableUdp/ReliableUdp/ReliabilityController.cs:55-71 | framing keeps the registry's key invariant |
| `Reliability.FrameUnreliable` | ReliableUdp/ReliableUdp/ReliabilityController.cs:63-70 | unreliable framing puts a zero byte in front, adds one to the length and leaves the registry alone |
| `Reliability.FrameReliable` | ReliableUdp/ReliableUdp/ReliabilityController.cs:57-61 | with a free counter s, reliable framing gives `[0xC0, s] + payload` with length + 2, and registers exactly those bytes under s with the connected-mode resend action, count 0 and the counter advanced |
| `Reliability.FrameReliableInUse` | ReliableUdp/ReliableUdp/ReliabilityController.cs:57-61 | reliable framing while the counter's number is pending fails with SequenceInUse |
| `Reliability.Detect` | ReliableUdp/ReliableUdp/ReliabilityController.cs:176-204 | at most one acknowledgement is sent; the acknowledgement and a registry change never happen together; a failure changes nothing; on success the buffer is the classifier's payload, the datagram is swallowed iff it is a release, and a swallowed one is exactly `Remove` of its number |
| `Reliability.DetectUnreliable` | ReliableUdp/ReliableUdp/ReliabilityController.cs:198-203 | an unreliable frame is delivered whole with no side effect |
| `Reliability.DetectReliable` | ReliableUdp/ReliableUdp/ReliabilityController.cs:182-190 | a reliable frame is delivered whole and answered by one acknowledgement `[0xA0, s]`, to the peer or to the source according to the socket mode |
| `Reliability.DetectAckReleases` | ReliableUdp/ReliableUdp/ReliabilityController.cs:191-196 | the acknowledgement of a pending number is swallowed, releases exactly that number and sends nothing |
| `Reliability.DetectDuplicateAck` | ReliableUdp/ReliableUdp/SequenceManager.cs:86 | an acknowledgement of a number no longer pending fails with KeyNotFound and changes nothing |
| `Reliability.DetectSeqAndAck` | ReliableUdp/ReliableUdp/ReliabilityController.cs:182-190 | a header with Seq and Ack both set is acknowledged and delivered, with nothing released |
| `Reliability.DetectNeitherKind` | ReliableUdp/ReliableUdp/ReliabilityController.cs:198-203 | a Realizable header with neither kind bit loses two bytes with no side effect |
| `Reliability.ReceiveLoop` | ReliableUdp/ReliableUdp/ReliabilityController.cs:79-91 | the loop keeps the registry invariant, never puts datagrams back, and a success consumes at least one |
| `Reliability.ReceiveSkipsAck` | ReliableUdp/ReliableUdp/ReliabilityController.cs:85-87 | a pending acknowledgement at the head is released and the loop continues on the rest with nothing sent |
| `Reliability.ReceiveOkHead` | ReliableUdp/ReliableUdp/ReliabilityController.cs:83-89 | a successful receive started on a datagram the classifier accepts, and skipped it only if its number was pending |
| `Reliability.ReceiveStops` | ReliableUdp/ReliableUdp/ReliabilityController.cs:85-89 | a head datagram that is not an acknowledgement is returned stripped with its source, after its acknowledgement if it asked for one |
| `Reliability.ReceiveTakesFromFront` | ReliableUdp/ReliableUdp/ReliabilityController.cs:81-90 | what the loop leaves unread is a suffix of the queue |
| `Reliability.ReceiveSkipsOnlyAcks` | ReliableUdp/ReliableUdp/ReliabilityController.cs:81-90 | every datagram a successful receive passes over is an acknowledgement |
| `Reliability.ReceiveFirstNonAck` | ReliableUdp/ReliableUdp/ReliabilityController.cs:81-90 | a successful receive returns the stripped payload and source of the first datagram that is not an acknowledgement, and sends only that datagram's acknowledgement, if any |
| `Reliability.ReceiveReleasesAcks` | ReliableUdp/ReliableUdp/ReliabilityController.cs:81-90 | a successful receive removes from all three dictionaries exactly the numbers of the skipped acknowledgements, keeping the frames, timers and counts of every other entry and the counter unchanged |
| `Reliability.ReleasesAfterAck` | ReliableUdp/ReliableUdp/ReliabilityController.cs:85-87 | releasing the head acknowledgement, then what the rest of the loop releases, is releasing both |
| `Reliability.ReceiveDuplicateAckFails` | ReliableUdp/ReliableUdp/ReliabilityController.cs:191-196 | a duplicate acknowledgement at the head ends the receive with KeyNotFound, consuming only that datagram |
| `Reliability.ResendStep` | ReliableUdp/ReliableUdp/ReliabilityController.cs:231-261 | a resend action keeps the registry invariant; for a number no longer pending it changes nothing and sends nothing (the KeyNotFound is caught); otherwise the registry becomes `ResendData` of it and at most one datagram is sent, exactly when the action's mode matches the socket's: the stored frame with its full length, to the peer or to the action's endpoint |
| `Reliability.TimerStep` | ReliableUdp/ReliableUdp/SequenceManager.cs:66-70 | the timer of a number that is not pending does nothing |
| `Reliability.TimerSteps` | ReliableUdp/ReliableUdp/SequenceManager.cs:66-71 | any number of timer firings keep the registry invariant |
| `Reliability.ResendOnce` | ReliableUdp/ReliableUdp/ReliabilityController.cs:231-243 | one firing of an armed timer adds one to the entry's count and re-arms it; it sends the stored frame to the peer once on a connected socket and nothing on an unconnected one |
| `Reliability.ResendsKeepEntry` | ReliableUdp/ReliableUdp/ReliabilityController.cs:231-243 | without an acknowledgement the entry stays pending forever, in either socket mode: n firings keep its frame, add n to its count and leave its timer armed |
| `Reliability.UnconnectedNeverResends` | ReliableUdp/ReliableUdp/ReliabilityController.cs:231-243 | on an unconnected socket, any number of firings of a connected-mode timer send nothing |
| `Reliability.ResendsWithoutCap` | ReliableUdp/ReliableUdp/ReliabilityController.cs:231-243 | n firings send exactly n copies of the stored frame to the peer: there is no retry cap |
| `Reliability.AddressedFrameNeverResent` | ReliableUdp/ReliableUdp/ReliabilityController.cs:55-61 | on an unconnected socket, n firings of a reliable frame's timer send nothing, yet the entry stays pending with its frame, its count at n and its timer re-armed |
| `Reliability.Exchange` | ReliableUdp/ReliableUdp/ReliabilityController.cs:176-204 | the first `bytes` bytes of a payload, framed reliably, reach the receiver whole and are answered by one acknowledgement; that acknowledgement releases the sender's entry, after which its timer sends nothing |
| `Reliability.ReliabilityController.constructor` | ReliableUdp/ReliableUdp/ReliabilityController.cs:41-45 | the controller keeps the client's socket and a fresh, initial registry |
| `Reliability.ReliabilityController.AddReliable` | ReliableUdp/ReliableUdp/ReliabilityController.cs:55-71 | returns the framed buffer and length and moves the registry as `Frame` says, or fails with it unchanged |
| `Reliability.ReliabilityController.StartResend` | ReliableUdp/ReliableUdp/ReliabilityController.cs:139-142 | registers the frame with the connected-mode resend action |
| `Reliability.ReliabilityController.StartResendTo` | ReliableUdp/ReliableUdp/ReliabilityController.cs:149-152 | registers the frame with the resend action addressed to the endpoint |
| `Reliability.ReliabilityController.DetectReliableHeader` | ReliableUdp/ReliableUdp/ReliabilityController.cs:176-204 | the result, the registry and the datagrams written are those of `Detect` |
| `Reliability.ReliabilityController.SendAck` | ReliableUdp/ReliableUdp/ReliabilityController.cs:210-214 | writes exactly the acknowledgement `[0xA0, s]` of length 2 to the peer |
| `Reliability.ReliabilityController.SendAckTo` | ReliableUdp/ReliableUdp/ReliabilityController.cs:221-225 | writes exactly the acknowledgement `[0xA0, s]` of length 2 to the endpoint |
| `Reliability.ReliabilityController.RealizableReceive` | ReliableUdp/ReliableUdp/ReliabilityController.cs:79-91 | the loop's result, registry, send log and remaining queue are those of `ReceiveLoop` |
| `Reliability.ReliabilityController.Resend` | ReliableUdp/ReliableUdp/ReliabilityController.cs:231-243 | performs `ResendStep` with the connected-mode action |
| `Reliability.ReliabilityController.ResendTo` | ReliableUdp/ReliableUdp/ReliabilityController.cs:250-261 | performs `ResendStep` with the addressed action |
| `Reliability.ReliabilityController.TimerElapsed` | ReliableUdp/ReliableUdp/SequenceManager.cs:67-70 | a timer firing performs `TimerStep`: the armed timer's action, or nothing |
| `Client.ModeError` | ReliableUdp/ReliableUdp/ReliableUdpClient.cs:105-121 | a send without a destination is refused with NotConnected iff the socket is unconnected, and one with a destination is refused with AlreadyConnected iff it is connected |
| `Client.SendStep` | ReliableUdp/ReliableUdp/ReliableUdpClient.cs:105-121 | a send passes iff the mode fits and framing succeeds; a failed send changes nothing and sends nothing; a passing one sends exactly one datagram, the framed bytes and length, to the requested destination |
| `Client.RejectedSendChangesNothing` | ReliableUdp/ReliableUdp/ReliableUdpClient.cs:105-121 | a send in the wrong mode fails before framing: nothing registered, nothing sent |
| `Client.UnreliableSendFramesOnce` | ReliableUdp/ReliableUdp/ReliableUdpClient.cs:53-69 | an unreliable send in the right mode sends the payload behind one zero byte with length + 1 and leaves the registry alone |
| `Client.ReliableSendRegisters` | ReliableUdp/ReliableUdp/ReliableUdpClient.cs:105-121 | a reliable send sends `[0xC0, s] + payload` with length + 2 and registers exactly that frame under s with the connected-mode resend action, also for an addressed send |
| `Client.ReliableSendInUse` | ReliableUdp/ReliableUdp/ReliableUdpClient.cs:105-121 | a reliable send while the counter's number is pending fails with SequenceInUse and sends nothing |
| `Client.ReliableUdpClient.constructor` | ReliableUdp/ReliableUdp/ReliableUdpClient.cs:21-49 | a client over a fresh socket with a fresh controller and an initial registry |
| `Client.ReliableUdpClient.Send` | ReliableUdp/ReliableUdp/ReliableUdpClient.cs:105-112 | the outcome, the registry and the datagrams sent are those of `SendStep` without a destination |
| `Client.ReliableUdpClient.SendTo` | ReliableUdp/ReliableUdp/ReliableUdpClient.cs:114-121 | the outcome, the registry and the datagrams sent are those of `SendStep` with the endpoint |
| `Client.ReliableUdpClient.SendUnreliable` | ReliableUdp/ReliableUdp/ReliableUdpClient.cs:53-60 | `SendStep` without a destination and without reliability |
| `Client.ReliableUdpClient.SendToUnreliable` | ReliableUdp/ReliableUdp/ReliableUdpClient.cs:62-69 | `SendStep` with the endpoint and without reliability |
| `Client.ReliableUdpClient.Receive` | ReliableUdp/ReliableUdp/ReliableUdpClient.cs:159-162 | the controller's `ReceiveLoop`, in either socket mode |
| `Client.ReliableUdpClient.ReceiveAsync` | ReliableUdp/ReliableUdp/ReliableUdpClient.cs:164-169 | fails with NotConnected on an unconnected socket, reading nothing and changing nothing; otherwise the controller's `ReceiveLoop` |

## Left out

- Time and concurrency. Timers are never scheduled in real time: a firing is the explicit step `TimerElapsed` / `TimerStep`, which the environment may take between any two operations. The 30 ms timer period is not modelled. Races between a timer thread and the caller are not modelled, since the dictionaries are not synchronized in the code either.
- The asynchronous overloads. `SendAsync` and `BeginSend` (ReliableUdpClient.cs:71-103 and 123-155) perform the same guard and framing as the synchronous overloads before their hand-off, so they are modelled by `Send`, `SendTo`, `SendUnreliable` and `SendToUnreliable`. `RealizableReceiveAsync` (ReliabilityController.cs:96-109) runs the same loop as `RealizableReceive` and is modelled by it; the `Incoming` record carries the remote endpoint that `UdpReceiveResult` holds.
- Task and `IAsyncResult` plumbing, the byte counts returned by the platform's sends, and the platform's argument checks (null buffer, a length larger than the buffer) are not modelled; the length argument is carried as an unbounded integer, so 32-bit overflow of `bytes + 2` is not modelled.
- Sequencing.SequenceManager.GetResendData: does not model 32-bit overflow of the resend count, which the code would need about two billion resends of one packet to reach.
- The socket: binding, address families, host name resolution and the `Connect` call are left out; endpoints are abstract values, and the six constructors (ReliableUdpClient.cs:21-49) differ only in how the base socket is bound, so they collapse into one that takes the socket's mode. A blocking `Receive` on an empty queue is modelled as failing with `TransportClosed`, the way a closed socket ends the loop.
- Disposing a timer (SequenceManager.cs:87) has no observable effect beyond removing it, which is modelled.
- Logging: the caught exception inside a resend action is printed in the code; the model only records that the failure is swallowed.
- The example programs and serialization helpers in the `Example` directory are not part of the core and not modelled.
