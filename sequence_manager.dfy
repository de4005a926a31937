/** The sequence registry (`SequenceManager`): the wrapping byte counter and the
    three dictionaries keyed by sequence number that hold, for every reliable
    packet still unacknowledged, its framed bytes, its resend timer and its
    resend count. Timers are reduced to an "armed" flag and the resend action
    they were given; their firing is the explicit step `Elapse`. */
module Sequencing {
  import opened Common

  /** The resend closure a timer invokes: the connected-mode `Resend(seq)` or
      the addressed `Resend(seq, endPoint)`. */
  datatype ResendAction = ResendToPeer | ResendToEndpoint(endPoint: Endpoint)

  /** A one-shot (`AutoReset = false`) timer: started or not, and what it calls. */
  datatype Timer = Timer(armed: bool, action: ResendAction)

  /** The value of a `SequenceManager` object. */
  datatype RegistryState = RegistryState(
    sequenceNum: byte,
    packetTemp: map<byte, seq<byte>>,
    resendTimers: map<byte, Timer>,
    resendStatistics: map<byte, int>)

  /** The sequence numbers still awaiting their acknowledgement. */
  function Pending(t: RegistryState): set<byte>
  {
    t.packetTemp.Keys
  }

  /** The three dictionaries always hold the same keys. */
  ghost predicate ValidState(t: RegistryState)
  {
    && t.resendTimers.Keys == t.packetTemp.Keys
    && t.resendStatistics.Keys == t.packetTemp.Keys
  }

  /** Every entry other than the one under `except` is the same in `u` as in `t`. */
  ghost predicate OthersUnchanged(t: RegistryState, u: RegistryState, except: byte)
  {
    && u.packetTemp - {except} == t.packetTemp - {except}
    && u.resendTimers - {except} == t.resendTimers - {except}
    && u.resendStatistics - {except} == t.resendStatistics - {except}
  }

  /** A new manager: counter 0 and nothing pending. */
  function Initial(): (t: RegistryState)
    ensures ValidState(t) && t.sequenceNum == 0 && Pending(t) == {}
  {
    RegistryState(0, map[], map[], map[])
  }

  /** `sequenceNum++` on a C# `byte`: 255 wraps to 0. */
  function Next(s: byte): (n: byte)
    ensures s < 255 ==> n == s + 1
    ensures s == 255 ==> n == 0
  {
    if s == 255 then 0 else s + 1
  }

  /** `RegisterResendEvent`: stores `dgram` under the current counter with an armed
      timer and count 0, then advances the counter; fails when that number is pending. */
  function Register(t: RegistryState, dgram: seq<byte>, action: ResendAction): (r: Result<RegistryState>)
    requires ValidState(t)
    ensures r.Err? <==> t.sequenceNum in Pending(t)
    ensures r.Err? ==> r.error == SequenceInUse
    ensures r.Ok? ==>
      var s, u := t.sequenceNum, r.value;
      && ValidState(u)
      && Pending(u) == Pending(t) + {s}
      && u.packetTemp[s] == dgram
      && u.resendTimers[s] == Timer(true, action)
      && u.resendStatistics[s] == 0
      && u.sequenceNum == Next(s)
      && OthersUnchanged(t, u, s)
  {
    var s := t.sequenceNum;
    if s in t.packetTemp then Err(SequenceInUse)
    else Ok(RegistryState(
      Next(s),
      t.packetTemp[s := dgram],
      t.resendTimers[s := Timer(true, action)],
      t.resendStatistics[s := 0]))
  }

  /** `RemoveResendEvent`: forgets `s` in all three dictionaries; an `s` that is not
      pending fails at the timer-dictionary indexer. */
  function Remove(t: RegistryState, s: byte): (r: Result<RegistryState>)
    requires ValidState(t)
    ensures r.Err? <==> s !in Pending(t)
    ensures r.Err? ==> r.error == KeyNotFound
    ensures r.Ok? ==>
      var u := r.value;
      && ValidState(u)
      && Pending(u) == Pending(t) - {s}
      && u.sequenceNum == t.sequenceNum
      && u.packetTemp == t.packetTemp - {s}
      && u.resendTimers == t.resendTimers - {s}
      && u.resendStatistics == t.resendStatistics - {s}
  {
    if s !in t.resendTimers then Err(KeyNotFound)
    else Ok(RegistryState(
      t.sequenceNum,
      t.packetTemp - {s},
      t.resendTimers - {s},
      t.resendStatistics - {s}))
  }

  /** `GetResendData`: the stored bytes of `s`, whose count goes up by one and whose
      timer is started again; an `s` that is not pending fails. */
  function ResendData(t: RegistryState, s: byte): (r: Result<(seq<byte>, RegistryState)>)
    requires ValidState(t)
    ensures r.Err? <==> s !in Pending(t)
    ensures r.Err? ==> r.error == KeyNotFound
    ensures r.Ok? ==>
      var (d, u) := r.value;
      && d == t.packetTemp[s]
      && ValidState(u)
      && Pending(u) == Pending(t)
      && u.sequenceNum == t.sequenceNum
      && u.packetTemp == t.packetTemp
      && u.resendStatistics == t.resendStatistics[s := t.resendStatistics[s] + 1]
      && u.resendTimers == t.resendTimers[s := Timer(true, t.resendTimers[s].action)]
  {
    if s !in t.packetTemp then Err(KeyNotFound)
    else
      var timer := t.resendTimers[s];
      Ok((t.packetTemp[s], t.(
        resendStatistics := t.resendStatistics[s := t.resendStatistics[s] + 1],
        resendTimers := t.resendTimers[s := timer.(armed := true)])))
  }

  /** The `Elapsed` event of a one-shot timer: an armed timer of `s` stops and hands
      back its resend action; otherwise nothing happens. */
  function Elapse(t: RegistryState, s: byte): (r: (Option<ResendAction>, RegistryState))
    requires ValidState(t)
    ensures r.0.Some? <==> s in Pending(t) && t.resendTimers[s].armed
    ensures r.0.Some? ==>
      && r.0.value == t.resendTimers[s].action
      && r.1.resendTimers == t.resendTimers[s := Timer(false, r.0.value)]
    ensures r.0.None? ==> r.1 == t
    ensures ValidState(r.1) && Pending(r.1) == Pending(t) && r.1.sequenceNum == t.sequenceNum
    ensures r.1.packetTemp == t.packetTemp && r.1.resendStatistics == t.resendStatistics
  {
    if s in t.resendTimers && t.resendTimers[s].armed then
      (Some(t.resendTimers[s].action),
       t.(resendTimers := t.resendTimers[s := t.resendTimers[s].(armed := false)]))
    else (None, t)
  }

  // ---------------------------------------------------------------------------
  // The sequence space holds 256 numbers.

  /** The byte values below `n`. */
  function ByteRange(n: nat): (r: set<byte>)
    requires n <= 256
    ensures forall b: byte :: b in r <==> (b as int) < n
    ensures |r| == n
    decreases n
  {
    if n == 0 then {} else ByteRange(n - 1) + {(n - 1) as byte}
  }

  /** A subset of a set of sequence numbers is no larger than the set. */
  lemma SubsetNoLarger(a: set<byte>, b: set<byte>)
    requires a <= b
    ensures |a| <= |b|
  {
    assert b == a + (b - a);
  }

  /** At most 256 sequence numbers can be pending at once. */
  lemma PendingAtMost256(t: RegistryState)
    ensures |Pending(t)| <= 256
  {
    SubsetNoLarger(Pending(t), ByteRange(256));
  }

  /** With all 256 numbers pending, the next registration fails and changes nothing. */
  lemma FullRegistryRejects(t: RegistryState, dgram: seq<byte>, action: ResendAction)
    requires ValidState(t) && |Pending(t)| == 256
    ensures Register(t, dgram, action) == Err(SequenceInUse)
  {
    if t.sequenceNum !in Pending(t) {
      SubsetNoLarger(Pending(t), ByteRange(256) - {t.sequenceNum});
    }
  }

  /** Consecutive registrations with no removal in between. */
  function RegisterAll(t: RegistryState, ds: seq<seq<byte>>, action: ResendAction): (r: Result<RegistryState>)
    requires ValidState(t)
    ensures r.Ok? ==> ValidState(r.value)
    decreases |ds|
  {
    if ds == [] then Ok(t)
    else match RegisterAll(t, ds[..|ds| - 1], action)
      case Err(e) => Err(e)
      case Ok(u) => Register(u, ds[|ds| - 1], action)
  }

  /** One more registration when numbers 0 to n-2 are pending and the counter is n-1. */
  lemma RegisterNextInRange(u: RegistryState, d: seq<byte>, action: ResendAction, n: nat)
    requires 0 < n <= 256 && ValidState(u)
    requires Pending(u) == ByteRange(n - 1) && u.sequenceNum as int == n - 1
    ensures Register(u, d, action).Ok?
    ensures var w := Register(u, d, action).value;
      && Pending(w) == ByteRange(n)
      && w.sequenceNum as int == (if n == 256 then 0 else n)
  {
    var s := u.sequenceNum;
    assert s !in ByteRange(n - 1);
    var w := Register(u, d, action).value;
    assert Pending(w) == Pending(u) + {s};
    assert ByteRange(n) == ByteRange(n - 1) + {s};
  }

  /** From a new manager, the first n <= 256 registrations succeed
      and leave numbers 0 to n-1 pending, with the counter at n (256 wrapping to 0). */
  lemma {:induction false} RegisterFromInitial(ds: seq<seq<byte>>, action: ResendAction)
    requires |ds| <= 256
    ensures RegisterAll(Initial(), ds, action).Ok?
    ensures var u := RegisterAll(Initial(), ds, action).value;
      && Pending(u) == ByteRange(|ds|)
      && u.sequenceNum as int == (if |ds| == 256 then 0 else |ds|)
  {
    if ds != [] {
      var n := |ds|;
      var prefix := ds[..n - 1];
      RegisterFromInitial(prefix, action);
      var u := RegisterAll(Initial(), prefix, action).value;
      RegisterNextInRange(u, ds[n - 1], action, n);
      var w := Register(u, ds[n - 1], action).value;
      assert RegisterAll(Initial(), ds, action) == Ok(w) by {
        assert ds[..n - 1] == prefix;
      }
    }
  }

  /** After 256 registrations with no removal, the 257th fails. */
  lemma ExhaustedAfter256(ds: seq<seq<byte>>, action: ResendAction)
    requires |ds| == 257
    ensures RegisterAll(Initial(), ds, action) == Err(SequenceInUse)
  {
    RegisterFromInitial(ds[..256], action);
  }

  /** One reliable send acknowledged before anything else happens: register, then
      remove the number just registered. */
  function AckedRound(t: RegistryState, d: seq<byte>, action: ResendAction): (r: Result<RegistryState>)
    requires ValidState(t)
    ensures r.Ok? ==> ValidState(r.value)
  {
    match Register(t, d, action)
    case Err(e) => Err(e)
    case Ok(u) => Remove(u, t.sequenceNum)
  }

  /** `n` acknowledged sends in a row. */
  function AckedRounds(t: RegistryState, d: seq<byte>, action: ResendAction, n: nat): (r: Result<RegistryState>)
    requires ValidState(t)
    ensures r.Ok? ==> ValidState(r.value)
    decreases n
  {
    if n == 0 then Ok(t)
    else match AckedRound(t, d, action)
      case Err(e) => Err(e)
      case Ok(w) => AckedRounds(w, d, action, n - 1)
  }

  /** An acknowledged send on a free counter gives back the registry it started from,
      with only the counter advanced. */
  lemma AckedRoundRestores(t: RegistryState, d: seq<byte>, action: ResendAction)
    requires ValidState(t) && t.sequenceNum !in Pending(t)
    ensures AckedRound(t, d, action) == Ok(t.(sequenceNum := Next(t.sequenceNum)))
  {
    var s := t.sequenceNum;
    var u := Register(t, d, action).value;
    assert u.packetTemp - {s} == t.packetTemp;
    assert u.resendTimers - {s} == t.resendTimers;
    assert u.resendStatistics - {s} == t.resendStatistics;
  }

  /** `n` acknowledged sends from a free counter: one restores the registry with the
      counter advanced, and `n - 1` follow from there. */
  lemma AckedRoundsUnfold(t: RegistryState, d: seq<byte>, action: ResendAction, n: nat)
    requires ValidState(t) && n > 0 && t.sequenceNum !in Pending(t)
    ensures AckedRounds(t, d, action, n) == AckedRounds(t.(sequenceNum := Next(t.sequenceNum)), d, action, n - 1)
  {
    AckedRoundRestores(t, d, action);
  }

  /** The counter after `n` increments: `n` applications of `Next`. */
  function Advance(s: byte, n: nat): (r: byte)
    ensures r as int == (s as int + n) % 256
    decreases n
  {
    if n == 0 then s else Advance(Next(s), n - 1)
  }

  /** As long as every number the counter passes is free, acknowledged sends only
      advance the counter, also across the wrap from 255 to 0. */
  lemma {:induction false} AckedRoundsAdvance(t: RegistryState, d: seq<byte>, action: ResendAction, n: nat)
    requires ValidState(t)
    requires forall k: nat :: k < n ==> Advance(t.sequenceNum, k) !in t.packetTemp
    ensures AckedRounds(t, d, action, n) == Ok(t.(sequenceNum := Advance(t.sequenceNum, n)))
    decreases n
  {
    if n == 0 {
      assert AckedRounds(t, d, action, n) == Ok(t);
    } else {
      var s := t.sequenceNum;
      assert Advance(s, 0) == s;
      AckedRoundsUnfold(t, d, action, n);
      var w := t.(sequenceNum := Next(s));
      forall k: nat | k < n - 1
        ensures Advance(w.sequenceNum, k) !in w.packetTemp
      {
        assert Advance(s, k + 1) == Advance(w.sequenceNum, k);
      }
      AckedRoundsAdvance(w, d, action, n - 1);
      assert Advance(s, n) == Advance(w.sequenceNum, n - 1);
    }
  }

  /** The counter, not the number of outstanding packets, decides `SequenceInUse`:
      one unacknowledged send followed by 255 acknowledged ones brings the counter
      back to the stale number, and the next send fails with a single packet pending. */
  lemma StaleEntryBlocksAfterWrap(d: seq<byte>, action: ResendAction)
    ensures Register(Initial(), d, action).Ok?
    ensures var first := Register(Initial(), d, action).value;
      && AckedRounds(first, d, action, 255).Ok?
      && var w := AckedRounds(first, d, action, 255).value;
      && Pending(w) == {0}
      && |Pending(w)| == 1
      && w.sequenceNum == 0
      && Register(w, d, action) == Err(SequenceInUse)
  {
    var first := Register(Initial(), d, action).value;
    assert Pending(first) == {0} && first.sequenceNum == 1;
    forall k: nat | k < 255
      ensures Advance(first.sequenceNum, k) !in first.packetTemp
    {
      assert Advance(first.sequenceNum, k) as int == 1 + k;
    }
    AckedRoundsAdvance(first, d, action, 255);
  }

  /** The registry object. Its methods keep `Valid()` and are specified by the
      functions above on `State()`. */
  class SequenceManager {
    var sequenceNum: byte
    var packetTemp: map<byte, seq<byte>>
    var resendTimers: map<byte, Timer>
    var resendStatistics: map<byte, int>

    /** The value this object currently holds. */
    function State(): RegistryState
      reads this
    {
      RegistryState(sequenceNum, packetTemp, resendTimers, resendStatistics)
    }

    ghost predicate Valid()
      reads this
    {
      ValidState(State())
    }

    constructor ()
      ensures Valid() && State() == Initial()
    {
      sequenceNum := 0;
      packetTemp := map[];
      resendTimers := map[];
      resendStatistics := map[];
    }

    method RegisterResendEvent(dgram: seq<byte>, resend: ResendAction) returns (r: Outcome)
      requires Valid()
      modifies this
      ensures Valid()
      ensures var spec := Register(old(State()), dgram, resend);
        if spec.Ok? then r == Pass && State() == spec.value
        else r == Fail(spec.error) && State() == old(State())
    {
      var seqNum := sequenceNum;
      if seqNum in packetTemp {
        return Fail(SequenceInUse);
      }
      packetTemp := packetTemp[seqNum := dgram];
      var timer := Timer(false, resend);
      resendTimers := resendTimers[seqNum := timer];
      resendStatistics := resendStatistics[seqNum := 0];
      sequenceNum := Next(sequenceNum);
      resendTimers := resendTimers[seqNum := timer.(armed := true)];
      assert resendTimers == old(resendTimers)[seqNum := Timer(true, resend)];
      r := Pass;
    }

    method RemoveResendEvent(seqNum: byte) returns (r: Outcome)
      requires Valid()
      modifies this
      ensures Valid()
      ensures var spec := Remove(old(State()), seqNum);
        if spec.Ok? then r == Pass && State() == spec.value
        else r == Fail(spec.error) && State() == old(State())
    {
      packetTemp := packetTemp - {seqNum};
      if seqNum !in resendTimers {
        assert packetTemp == old(packetTemp);
        return Fail(KeyNotFound);
      }
      resendTimers := resendTimers - {seqNum};
      resendStatistics := resendStatistics - {seqNum};
      r := Pass;
    }

    method GetResendData(seqNum: byte) returns (r: Result<seq<byte>>)
      requires Valid()
      modifies this
      ensures Valid()
      ensures var spec := ResendData(old(State()), seqNum);
        if spec.Ok? then r == Ok(spec.value.0) && State() == spec.value.1
        else r == Err(spec.error) && State() == old(State())
    {
      if seqNum !in packetTemp {
        return Err(KeyNotFound);
      }
      var dgram := packetTemp[seqNum];
      resendStatistics := resendStatistics[seqNum := resendStatistics[seqNum] + 1];
      resendTimers := resendTimers[seqNum := resendTimers[seqNum].(armed := true)];
      r := Ok(dgram);
    }

    /** The timer of `seqNum` elapsing (the source's timer thread, as a step). */
    method Elapsed(seqNum: byte) returns (action: Option<ResendAction>)
      requires Valid()
      modifies this
      ensures Valid()
      ensures (action, State()) == Elapse(old(State()), seqNum)
    {
      if seqNum in resendTimers && resendTimers[seqNum].armed {
        action := Some(resendTimers[seqNum].action);
        resendTimers := resendTimers[seqNum := resendTimers[seqNum].(armed := false)];
      } else {
        action := None;
      }
    }
  }
}
