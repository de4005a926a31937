/** The on-the-wire layout of a datagram: the flag byte, the optional
    sequence byte, and the classifier that strips them again. */
module Wire {
  import opened Common

  // The values of the `ReliableFlag` enumeration.
  const Realizable: byte := 0x80
  const Seq: byte := 0x40
  const Ack: byte := 0x20

  /** Header of a reliable data packet: `Realizable | Seq`. */
  const SeqHeader: byte := Realizable + Seq
  /** Header of an acknowledgement: `Realizable | Ack`. */
  const AckHeader: byte := Realizable + Ack

  /** `(b & flag) > 0` for a flag of a single bit: that bit of `b` is set. */
  predicate HasFlag(b: byte, flag: byte)
    requires flag == Realizable || flag == Seq || flag == Ack
  {
    if flag == Realizable then b >= 0x80
    else if flag == Seq then b % 0x80 >= 0x40
    else b % 0x40 >= 0x20
  }

  /** Number of header bytes the classifier strips for a given first byte. */
  function HeaderLength(b: byte): (n: nat)
    ensures n == 1 || n == 2
  {
    if HasFlag(b, Realizable) then 2 else 1
  }

  /** `AddReliableHeader`: a copy of `d` behind a flag byte and a sequence byte. */
  function AddReliableHeader(d: seq<byte>, flags: byte, seqNum: byte): (r: seq<byte>)
    ensures |r| == |d| + 2
    ensures r[0] == flags && r[1] == seqNum
    ensures r[2..] == d
  {
    [flags, seqNum] + d
  }

  /** The unreliable framing of `AddReliable`: a copy of `d` behind one zero byte. */
  function AddUnreliableHeader(d: seq<byte>): (r: seq<byte>)
    ensures |r| == |d| + 1
    ensures r[0] == 0 && r[1..] == d
  {
    [0] + d
  }

  /** The acknowledgement `SendAck` builds: an empty payload behind `Realizable | Ack`. */
  function AckFrame(seqNum: byte): (r: seq<byte>)
    ensures r == [AckHeader, seqNum]
  {
    AddReliableHeader([], AckHeader, seqNum)
  }

  /** What `DetectReliableHeader` decides about one received datagram. */
  datatype Verdict =
    | Deliver(payload: seq<byte>)                      // no side effect, shown to the caller
    | DeliverAndAck(payload: seq<byte>, seqNum: byte)  // acknowledged, then shown to the caller
    | Release(payload: seq<byte>, seqNum: byte)        // releases `seqNum`, hidden from the caller

  /** The decision of `DetectReliableHeader`, without its side effects.
      Only bit 7 selects the two-byte header, and `Seq` is tested before `Ack`. */
  function Classify(dgram: seq<byte>): (r: Result<Verdict>)
    ensures |dgram| == 0 ==> r == Err(IndexOutOfRange)
    ensures |dgram| == 1 && HasFlag(dgram[0], Realizable) ==> r == Err(Overflow)
    ensures r.Ok? <==> |dgram| > 0 && |dgram| >= HeaderLength(dgram[0])
    ensures r.Ok? ==> r.value.payload == dgram[HeaderLength(dgram[0])..]
    ensures r.Ok? && !r.value.Deliver? ==> HasFlag(dgram[0], Realizable) && r.value.seqNum == dgram[1]
    ensures r.Ok? ==> (r.value.DeliverAndAck? <==> HasFlag(dgram[0], Realizable) && HasFlag(dgram[0], Seq))
    ensures r.Ok? ==> (r.value.Release? <==>
                         HasFlag(dgram[0], Realizable) && !HasFlag(dgram[0], Seq) && HasFlag(dgram[0], Ack))
  {
    if |dgram| == 0 then Err(IndexOutOfRange)
    else if HasFlag(dgram[0], Realizable) then
      if |dgram| < 2 then Err(Overflow)
      else if HasFlag(dgram[0], Seq) then Ok(DeliverAndAck(dgram[2..], dgram[1]))
      else if HasFlag(dgram[0], Ack) then Ok(Release(dgram[2..], dgram[1]))
      else Ok(Deliver(dgram[2..]))
    else Ok(Deliver(dgram[1..]))
  }

  /** Unreliable framing is undone by the classifier, with nothing to acknowledge. */
  lemma UnreliableRoundTrip(p: seq<byte>)
    ensures Classify(AddUnreliableHeader(p)) == Ok(Deliver(p))
  {
  }

  /** Reliable framing is undone by the classifier, which asks to acknowledge its number. */
  lemma ReliableRoundTrip(p: seq<byte>, s: byte)
    ensures Classify(AddReliableHeader(p, SeqHeader, s)) == Ok(DeliverAndAck(p, s))
  {
  }

  /** An acknowledgement is classified as the release of its sequence number. */
  lemma AckRoundTrip(s: byte)
    ensures Classify(AckFrame(s)) == Ok(Release([], s))
  {
  }

  /** A header with both `Seq` and `Ack` set is delivered and acknowledged, never released. */
  lemma SeqWinsOverAck(b: byte, s: byte, p: seq<byte>)
    requires HasFlag(b, Realizable) && HasFlag(b, Seq) && HasFlag(b, Ack)
    ensures Classify([b, s] + p) == Ok(DeliverAndAck(p, s))
  {
  }

  /** A reliable header with neither `Seq` nor `Ack` loses two bytes and has no side effect. */
  lemma ReliableWithoutKind(b: byte, s: byte, p: seq<byte>)
    requires HasFlag(b, Realizable) && !HasFlag(b, Seq) && !HasFlag(b, Ack)
    ensures Classify([b, s] + p) == Ok(Deliver(p))
  {
  }

  /** Without bit 7 the other flags are ignored: only one byte is stripped and nothing is acknowledged. */
  lemma FlagsIgnoredWithoutRealizable(b: byte, p: seq<byte>)
    requires !HasFlag(b, Realizable)
    ensures Classify([b] + p) == Ok(Deliver(p))
  {
  }
}
