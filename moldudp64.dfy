/**
 * Client side of the MoldUDP64 protocol: sequencing, gap detection and
 * timeout-gated retransmission requests.
 *
 * Step is the specification of one packet; the class MoldUDP64 is the
 * handler itself, whose HandlePacket is proved to follow Step. The clock is
 * the parameter now (milliseconds) and a retransmission request is recorded
 * in the ghost log requests instead of being sent.
 */
module MoldUdp64 {
  import opened Types
  import opened Endian
  import opened Event
  import opened Codec

  /** Minimum time between two timeout-gated requests, in milliseconds. */
  const kTimeoutMs: int := 1000
  /** Value of the recovery bound that means "synchronized". */
  const kSynchronized: nat := 0

  /** The three states the optional recovery bound encodes. */
  datatype Recovery = Unknown | Synchronized | Recovering(bound: nat)

  /** None = not yet known, 0 = synchronized, b > 0 = recovering up to b (exclusive). */
  function RecoveryOf(requestUntil: Option<nat>): (r: Recovery)
    ensures r == Unknown <==> requestUntil == None
    ensures r == Synchronized <==> requestUntil == Some(kSynchronized)
    ensures r.Recovering? <==> requestUntil.Some? && requestUntil.value > 0
    ensures r.Recovering? ==> r.bound == requestUntil.value
  {
    match requestUntil
    case None => Unknown
    case Some(b) => if b == kSynchronized then Synchronized else Recovering(b)
  }

  /** The session id last seen, and whether one has been set at all (the set flag). */
  datatype Session = Session(id: seq<byte>, isSet: bool)

  /** Where the delivered message lies in the receive buffer. */
  datatype MessageView = MessageView(data: nat, len: nat)

  /**
   * The message of a delivered datagram of len bytes: it starts after the
   * packet header and the 2-byte length field and runs to the end.
   */
  function ViewOf(len: nat): (v: MessageView)
    ensures v.data == kHeaderLength + kMessageHeaderLength
    ensures v.data + v.len == len || (len < v.data && v.len == 0)
  {
    MessageView(kHeaderLength + kMessageHeaderLength,
                if len >= kHeaderLength + kMessageHeaderLength then len - (kHeaderLength + kMessageHeaderLength) else 0)
  }

  /**
   * Reads the 20-byte header of a datagram of len bytes: fails with
   * PacketTruncatedError when the datagram is shorter, and otherwise
   * returns the session, the sequence number and the message count, with
   * the end-of-session count reported as the flag and zero messages.
   */
  method ParsePacketHeader(buf: array<byte>, len: nat) returns (r: Result<PacketHeader, PacketTruncatedError>)
    requires len <= buf.Length
    ensures r.Failure? <==> len < kHeaderLength
    ensures r.Failure? ==> r.error == PacketTruncatedError(len, kHeaderLength)
    ensures r.Success? ==> r.value == HeaderOf(buf[..len])
  {
    if len < kHeaderLength {
      return Failure(PacketTruncatedError(len, kHeaderLength));
    }
    Pow256Widths();
    assert buf[..len][10..18] == buf[10..18] && buf[..len][18..20] == buf[18..20];
    assert buf[..len][..kSessionLength] == buf[..kSessionLength];
    var sequenceNumber := ReadBigEndian(buf, kSessionLength, 8);
    var messageCount := ReadBigEndian(buf, kSessionLength + 8, 2);
    var sessionHasEnded := messageCount == kEndSession;
    if sessionHasEnded {
      messageCount := 0;
    }
    return Success(PacketHeader(buf[..kSessionLength], sequenceNumber, messageCount, sessionHasEnded));
  }

  /** Everything handle_packet reads or writes, plus the log of requests sent. */
  datatype ClientState = ClientState(
    nextExpected: nat,
    requestUntil: Option<nat>,
    lastRequestSent: int,
    session: Session,
    requests: seq<nat>)

  /** The state a handler constructed with a starting sequence number is in. */
  function InitialState(requestSequenceNum: nat): ClientState
  {
    ClientState(requestSequenceNum, None, 0, Session(seq(kSessionLength, _ => 0), false), [])
  }

  /** Sends a retransmission request starting at from and stamps its time. */
  function WithRequest(s: ClientState, from: nat, now: int): (r: ClientState)
    ensures r.requests == s.requests + [from] && r.lastRequestSent == now
    ensures r.nextExpected == s.nextExpected && r.requestUntil == s.requestUntil && r.session == s.session
  {
    s.(lastRequestSent := now, requests := s.requests + [from])
  }

  function Max(a: nat, b: nat): nat
  {
    if a < b then b else a
  }

  /**
   * One packet header arriving at time now: the new state, and whether the
   * packet was in order and its message delivered.
   */
  function Step(s0: ClientState, h: PacketHeader, now: int): (ClientState, bool)
  {
    var next := h.sequenceNumber + MessageCountOf(h);
    var s1 := s0.(session := Session(h.session, true));
    var s := if s1.nextExpected == 0 then s1.(nextExpected := h.sequenceNumber) else s1;
    if h.sequenceNumber > s.nextExpected then
      match s.requestUntil
      case None => (WithRequest(s.(requestUntil := Some(next)), s.nextExpected, now), false)
      case Some(b) =>
        if b == kSynchronized then
          (WithRequest(s.(requestUntil := Some(next)), s.nextExpected, now), false)
        else
          var widened := s.(requestUntil := Some(Max(b, next)));
          if now - s.lastRequestSent > kTimeoutMs then
            (WithRequest(widened, s.nextExpected, now), false)
          else
            (widened, false)
    else if h.sequenceNumber < s.nextExpected then
      (s, false)
    else
      var resolved :=
        match s.requestUntil
        case None => s.(requestUntil := Some(kSynchronized))
        case Some(b) =>
          if b == kSynchronized then s
          else if b == next then s.(requestUntil := Some(kSynchronized))
          else WithRequest(s, next, now);
      if h.endOfSession then (resolved, false)
      else (resolved.(nextExpected := resolved.nextExpected + 1), true)
  }

  /** Sequence arithmetic of the packet stays within 64 bits. */
  predicate NoWrap(h: PacketHeader)
  {
    h.sequenceNumber + MessageCountOf(h) < U64_LIMIT && h.sequenceNumber + 1 < U64_LIMIT
  }

  /** A packet carrying exactly one message, as the exchange always sends. */
  predicate SingleMessage(h: PacketHeader)
  {
    !h.endOfSession && h.messageCount == 1
  }

  /** A fresh handler adopts the first packet's sequence number and treats it as in order. */
  lemma FirstPacketBootstraps(s: ClientState, h: PacketHeader, now: int)
    requires s.nextExpected == 0 && s.requestUntil == None
    ensures var (s', delivered) := Step(s, h, now);
      && delivered == !h.endOfSession
      && s'.nextExpected == h.sequenceNumber + (if delivered then 1 else 0)
      && s'.requestUntil == Some(kSynchronized)
      && s'.requests == s.requests
      && s'.session == Session(h.session, true)
  {
  }

  /** A packet below the expected sequence number only records its session. */
  lemma DuplicateIgnored(s: ClientState, h: PacketHeader, now: int)
    requires s.nextExpected > 0 && h.sequenceNumber < s.nextExpected
    ensures Step(s, h, now) == (s.(session := Session(h.session, true)), false)
  {
  }

  /**
   * A gap seen while not recovering starts recovery: the bound becomes the
   * sequence number after the packet and a request from the expected
   * sequence number goes out at once; nothing is delivered.
   */
  lemma GapStartsRecovery(s: ClientState, h: PacketHeader, now: int)
    requires s.nextExpected > 0 && h.sequenceNumber > s.nextExpected
    requires !RecoveryOf(s.requestUntil).Recovering?
    ensures var (s', delivered) := Step(s, h, now);
      && !delivered
      && s'.nextExpected == s.nextExpected
      && RecoveryOf(s'.requestUntil) == Recovering(h.sequenceNumber + MessageCountOf(h))
      && s'.requests == s.requests + [s.nextExpected]
      && s'.lastRequestSent == now
  {
  }

  /**
   * A gap seen while recovering widens the bound to cover the packet
   * (it never shrinks) and sends a request from the expected sequence
   * number only when more than kTimeoutMs passed since the last one.
   */
  lemma GapWhileRecovering(s: ClientState, h: PacketHeader, now: int)
    requires s.nextExpected > 0 && h.sequenceNumber > s.nextExpected
    requires RecoveryOf(s.requestUntil).Recovering?
    ensures var (s', delivered) := Step(s, h, now);
      && !delivered
      && s'.nextExpected == s.nextExpected
      && s'.requestUntil.Some?
      && s'.requestUntil.value >= s.requestUntil.value
      && s'.requestUntil.value >= h.sequenceNumber + MessageCountOf(h)
      && (s'.requestUntil.value == s.requestUntil.value || s'.requestUntil.value == h.sequenceNumber + MessageCountOf(h))
      && (now - s.lastRequestSent > kTimeoutMs ==> s'.requests == s.requests + [s.nextExpected] && s'.lastRequestSent == now)
      && (now - s.lastRequestSent <= kTimeoutMs ==> s'.requests == s.requests && s'.lastRequestSent == s.lastRequestSent)
  {
  }

  /**
   * The in-order packet: its message is delivered unless it ends the
   * session; an unknown recovery state becomes synchronized, recovery
   * ends when the packet reaches the bound, and otherwise a request from
   * the sequence number after the packet is sent immediately.
   */
  lemma InOrderPacket(s: ClientState, h: PacketHeader, now: int)
    requires s.nextExpected > 0 && h.sequenceNumber == s.nextExpected
    ensures var (s', delivered) := Step(s, h, now);
      var next := h.sequenceNumber + MessageCountOf(h);
      && (delivered <==> !h.endOfSession)
      && s'.nextExpected == s.nextExpected + (if delivered then 1 else 0)
      && (match RecoveryOf(s.requestUntil)
          case Unknown => s'.requestUntil == Some(kSynchronized) && s'.requests == s.requests
          case Synchronized => s'.requestUntil == s.requestUntil && s'.requests == s.requests
          case Recovering(b) =>
            if b == next then s'.requestUntil == Some(kSynchronized) && s'.requests == s.requests
            else s'.requestUntil == s.requestUntil && s'.requests == s.requests + [next] && s'.lastRequestSent == now)
  {
  }

  /**
   * Every packet moves the expected sequence number forward by one exactly
   * when it delivers a message, and sends at most one request, stamped
   * with the packet's arrival time.
   */
  lemma StepAdvancesByOne(s: ClientState, h: PacketHeader, now: int)
    requires s.nextExpected > 0
    ensures var (s', delivered) := Step(s, h, now);
      && (delivered ==> h.sequenceNumber == s.nextExpected && s'.nextExpected == s.nextExpected + 1)
      && (!delivered ==> s'.nextExpected == s.nextExpected)
      && (s'.requests == s.requests || (s'.requests == s.requests + [s'.requests[|s.requests|]] && s'.lastRequestSent == now))
      && (s'.requests == s.requests ==> s'.lastRequestSent == s.lastRequestSent)
  {
  }

  /**
   * While recovering, the expected sequence number lies below the bound
   * (and past the initial zero), so recovery can still close by reaching
   * the bound.
   */
  ghost predicate RecoveryAhead(s: ClientState)
  {
    RecoveryOf(s.requestUntil).Recovering? ==> 0 < s.nextExpected < s.requestUntil.value
  }

  /**
   * Packets of one message (or end-of-session packets) keep RecoveryAhead:
   * with one message per packet the in-order packet at bound - 1 always
   * meets the bound exactly.
   */
  lemma StepKeepsRecoveryAhead(s: ClientState, h: PacketHeader, now: int)
    requires RecoveryAhead(s)
    requires h.endOfSession || h.messageCount == 1
    ensures RecoveryAhead(Step(s, h, now).0)
  {
  }

  /** The handler's starting state, whatever its starting sequence number, satisfies RecoveryAhead. */
  lemma InitialRecoveryAhead(requestSequenceNum: nat)
    ensures RecoveryAhead(InitialState(requestSequenceNum))
    ensures RecoveryOf(InitialState(requestSequenceNum).requestUntil) == Unknown
  {
  }

  /** A datagram header and the time it arrived. */
  datatype Arrival = Arrival(header: PacketHeader, now: int)

  /** The state after a run of packets and the number of messages delivered. */
  datatype Trace = Trace(state: ClientState, delivered: nat)

  function Run(s: ClientState, arrivals: seq<Arrival>): Trace
    decreases |arrivals|
  {
    if |arrivals| == 0 then Trace(s, 0)
    else
      var (s1, d) := Step(s, arrivals[0].header, arrivals[0].now);
      var t := Run(s1, arrivals[1..]);
      Trace(t.state, t.delivered + if d then 1 else 0)
  }

  /**
   * In-order single-message packets with consecutive sequence numbers from
   * a handler that is not recovering are all delivered, advance the
   * expected sequence number by their number and send no request.
   */
  lemma {:induction false} InOrderReplay(s: ClientState, arrivals: seq<Arrival>)
    requires s.nextExpected > 0 && !RecoveryOf(s.requestUntil).Recovering?
    requires forall k | 0 <= k < |arrivals| ::
      arrivals[k].header.sequenceNumber == s.nextExpected + k && SingleMessage(arrivals[k].header)
    ensures Run(s, arrivals).delivered == |arrivals|
    ensures Run(s, arrivals).state.nextExpected == s.nextExpected + |arrivals|
    ensures Run(s, arrivals).state.requests == s.requests
    ensures |arrivals| > 0 ==> Run(s, arrivals).state.requestUntil == Some(kSynchronized)
    decreases |arrivals|
  {
    if |arrivals| > 0 {
      var s1 := Step(s, arrivals[0].header, arrivals[0].now).0;
      assert s1.nextExpected == s.nextExpected + 1 && s1.requestUntil == Some(kSynchronized);
      assert forall k | 0 <= k < |arrivals| - 1 ::
        arrivals[1..][k].header.sequenceNumber == s1.nextExpected + k && SingleMessage(arrivals[1..][k].header);
      InOrderReplay(s1, arrivals[1..]);
    }
  }

  /**
   * Recovery closes once the missing packets arrive: from a bound b above
   * the expected sequence number n, the packets n .. b-1 in order are all
   * delivered and leave the handler synchronized at b. Every packet but the
   * last also sends an immediate request from the sequence number after it.
   */
  lemma {:induction false} RecoveryCloses(s: ClientState, arrivals: seq<Arrival>)
    requires s.requestUntil.Some? && 0 < s.nextExpected < s.requestUntil.value
    requires |arrivals| == s.requestUntil.value - s.nextExpected
    requires forall k | 0 <= k < |arrivals| ::
      arrivals[k].header.sequenceNumber == s.nextExpected + k && SingleMessage(arrivals[k].header)
    ensures Run(s, arrivals).delivered == |arrivals|
    ensures Run(s, arrivals).state.nextExpected == s.requestUntil.value
    ensures Run(s, arrivals).state.requestUntil == Some(kSynchronized)
    ensures Run(s, arrivals).state.requests == s.requests + seq(|arrivals| - 1, k => s.nextExpected + k + 1)
    decreases |arrivals|
  {
    var s1 := Step(s, arrivals[0].header, arrivals[0].now).0;
    var n := s.nextExpected;
    if |arrivals| == 1 {
      assert s1.requests == s.requests;
      assert seq(0, k => n + k + 1) == [];
    } else {
      assert s1 == s.(session := s1.session, nextExpected := n + 1, lastRequestSent := arrivals[0].now,
                      requests := s.requests + [n + 1]);
      assert forall k | 0 <= k < |arrivals| - 1 ::
        arrivals[1..][k].header.sequenceNumber == s1.nextExpected + k && SingleMessage(arrivals[1..][k].header);
      RecoveryCloses(s1, arrivals[1..]);
      assert [n + 1] + seq(|arrivals| - 2, k => n + 1 + k + 1) == seq(|arrivals| - 1, k => n + k + 1);
    }
  }

  /**
   * While recovering, gap packets arriving within kTimeoutMs of the last
   * request send no further request and deliver nothing; the bound ends up
   * covering every one of them and never below where it started.
   */
  lemma {:induction false} GapsWithinTimeoutSendNothing(s: ClientState, arrivals: seq<Arrival>)
    requires s.nextExpected > 0 && RecoveryOf(s.requestUntil).Recovering?
    requires forall k | 0 <= k < |arrivals| ::
      arrivals[k].header.sequenceNumber > s.nextExpected && arrivals[k].now - s.lastRequestSent <= kTimeoutMs
    ensures Run(s, arrivals).delivered == 0
    ensures Run(s, arrivals).state.nextExpected == s.nextExpected
    ensures Run(s, arrivals).state.requests == s.requests
    ensures Run(s, arrivals).state.lastRequestSent == s.lastRequestSent
    ensures RecoveryOf(Run(s, arrivals).state.requestUntil).Recovering?
    ensures Run(s, arrivals).state.requestUntil.value >= s.requestUntil.value
    ensures forall k | 0 <= k < |arrivals| ::
      Run(s, arrivals).state.requestUntil.value >= arrivals[k].header.sequenceNumber + MessageCountOf(arrivals[k].header)
    decreases |arrivals|
  {
    if |arrivals| > 0 {
      var s1 := Step(s, arrivals[0].header, arrivals[0].now).0;
      GapWhileRecovering(s, arrivals[0].header, arrivals[0].now);
      assert forall k | 0 <= k < |arrivals| - 1 ::
        arrivals[1..][k].header.sequenceNumber > s1.nextExpected && arrivals[1..][k].now - s1.lastRequestSent <= kTimeoutMs;
      GapsWithinTimeoutSendNothing(s1, arrivals[1..]);
      var t := Run(s, arrivals);
      forall k | 0 <= k < |arrivals|
        ensures t.state.requestUntil.value >= arrivals[k].header.sequenceNumber + MessageCountOf(arrivals[k].header)
      {
        if k > 0 {
          assert arrivals[k] == arrivals[1..][k - 1];
        }
      }
    }
  }

  /**
   * The MoldUDP64 client handler. Fields mirror the C++ members; the ghost
   * log records the starting sequence number of each request sent.
   */
  class MoldUDP64 {
    var nextExpected: uint64
    var requestUntil: Option<uint64>
    var lastRequestSent: int
    var session: Session
    var messageView: MessageView
    ghost var requests: seq<nat>

    ghost function State(): ClientState
      reads this
    {
      ClientState(nextExpected, match requestUntil case None => None case Some(b) => Some(b),
                  lastRequestSent, session, requests)
    }

    constructor (requestSequenceNum: uint64)
      ensures State() == InitialState(requestSequenceNum)
      ensures messageView == MessageView(0, 0)
    {
      nextExpected := requestSequenceNum;
      requestUntil := None;
      lastRequestSent := 0;
      session := Session(seq(kSessionLength, _ => 0), false);
      messageView := MessageView(0, 0);
      requests := [];
    }

    /** Installs the session id to follow; exactly kSessionLength bytes. */
    method SetSession(src: seq<byte>)
      requires |src| == kSessionLength
      modifies this
      ensures session == Session(src, true)
      ensures State() == old(State()).(session := Session(src, true))
      ensures messageView == old(messageView)
    {
      session := Session(src, true);
    }

    /**
     * Processes one datagram of len bytes received at time now. A datagram
     * shorter than the header fails with PacketTruncatedError and changes
     * nothing; otherwise the state moves as Step says and the result is
     * true exactly when the packet's message was delivered.
     */
    method HandlePacket(buf: array<byte>, len: nat, now: int) returns (r: Result<bool, PacketTruncatedError>)
      requires len <= buf.Length
      requires len >= kHeaderLength ==> NoWrap(HeaderOf(buf[..len]))
      modifies this
      ensures len < kHeaderLength ==> r == Failure(PacketTruncatedError(len, kHeaderLength))
      ensures len < kHeaderLength ==> State() == old(State()) && messageView == old(messageView)
      ensures len >= kHeaderLength ==> r.Success? && (State(), r.value) == Step(old(State()), HeaderOf(buf[..len]), now)
      ensures r == Success(true) ==> messageView == ViewOf(len)
      ensures r != Success(true) ==> messageView == old(messageView)
    {
      var parsed := ParsePacketHeader(buf, len);
      if parsed.Failure? {
        return Failure(parsed.error);
      }
      var delivered := Advance(parsed.value, len, now);
      r := Success(delivered);
    }

    /**
     * Moves the handler on past a packet with header h: the state changes
     * as Step says, and a delivered message is where ViewOf(len) says.
     */
    method Advance(h: PacketHeader, len: nat, now: int) returns (delivered: bool)
      requires NoWrap(h) && (h.endOfSession ==> h.messageCount == 0)
      modifies this
      ensures (State(), delivered) == Step(old(State()), h, now)
      ensures delivered ==> messageView == ViewOf(len)
      ensures !delivered ==> messageView == old(messageView)
    {
      session := Session(h.session, true);
      var sequenceNumber := h.sequenceNumber;
      var messageCount := h.messageCount;
      var nextSequenceNumber := sequenceNumber + messageCount;

      if nextExpected == 0 {
        nextExpected := sequenceNumber;
      }

      if sequenceNumber > nextExpected {
        // a packet has been dropped or delayed
        if requestUntil.None? {
          requestUntil := Some(nextSequenceNumber);
          Request(nextExpected, now);
        } else if requestUntil.value == kSynchronized {
          requestUntil := Some(nextSequenceNumber);
          Request(nextExpected, now);
        } else {
          requestUntil := Some(Max(requestUntil.value, nextSequenceNumber));
          if now - lastRequestSent > kTimeoutMs {
            Request(nextExpected, now);
          }
        }
        return false;
      }

      // old or duplicate packet
      if sequenceNumber < nextExpected {
        return false;
      }

      // recovery bookkeeping
      if requestUntil.None? || requestUntil.value != kSynchronized {
        if requestUntil.None? {
          requestUntil := Some(kSynchronized);
        } else if requestUntil.value == nextSequenceNumber {
          requestUntil := Some(kSynchronized);
        } else {
          Request(nextSequenceNumber, now);
        }
      }

      if h.endOfSession {
        return false;
      }
      // the source tests sequence_number == next_expected again here; it always holds
      Read(len);
      return true;
    }

    /** Sends a retransmission request from sequenceNumber and stamps the time. */
    method Request(sequenceNumber: uint64, now: int)
      modifies this
      ensures State() == WithRequest(old(State()), sequenceNumber, now)
      ensures messageView == old(messageView)
    {
      lastRequestSent := now;
      requests := requests + [sequenceNumber];
    }

    /** Delivers the in-order message and moves on to the next sequence number. */
    method Read(len: nat)
      requires nextExpected as int + 1 < U64_LIMIT
      modifies this
      ensures State() == old(State()).(nextExpected := old(nextExpected) + 1)
      ensures messageView == ViewOf(len)
    {
      messageView := ViewOf(len);
      nextExpected := nextExpected + 1;
    }
  }
}
