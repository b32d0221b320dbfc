/**
 * Byte layout of a MoldUDP64 downstream packet carrying one market event,
 * as the exchange simulator writes it and the feed handler reads it:
 *
 *   0..9    session            10 bytes
 *   10..17  sequence number    u64
 *   18..19  message count      u16 (0xFFFF = end of session)
 *   20..21  msg_len            u16 (bytes after itself: 22)
 *   22..43  message body       instrument u32, side u8, event u8,
 *                              price u32, quantity u32, timestamp u64
 *
 * All integers are big-endian. The same 20-byte header is used by the
 * retransmission request.
 */
module Codec {
  import opened Types
  import opened Endian
  import opened Event

  datatype PacketHeader = PacketHeader(
    session: seq<byte>,
    sequenceNumber: uint64,
    messageCount: uint16,
    endOfSession: bool)

  /** The datagram is shorter than the bytes the parser needs. */
  datatype PacketTruncatedError = PacketTruncatedError(received: nat, expected: nat)

  lemma Pow256Widths()
    ensures Pow256(1) == U8_LIMIT && Pow256(2) == U16_LIMIT
    ensures Pow256(4) == U32_LIMIT && Pow256(8) == U64_LIMIT
  {
  }

  /**
   * The header fields of a datagram of at least 20 bytes. A count of
   * 0xFFFF is reported as the end-of-session flag with zero messages.
   */
  function HeaderOf(p: seq<byte>): (h: PacketHeader)
    requires |p| >= kHeaderLength
    ensures |h.session| == kSessionLength && h.session == p[..kSessionLength]
    ensures h.sequenceNumber == BeValue(p[10..18])
    ensures h.endOfSession <==> BeValue(p[18..20]) == kEndSession
    ensures h.messageCount <= kMaxMessageCount
    ensures h.endOfSession ==> h.messageCount == 0
    ensures !h.endOfSession ==> h.messageCount == BeValue(p[18..20])
  {
    Pow256Widths();
    var raw := BeValue(p[18..20]);
    PacketHeader(p[..10], BeValue(p[10..18]), if raw == kEndSession then 0 else raw, raw == kEndSession)
  }

  /** Number of messages the header announces: none at the end of a session. */
  function MessageCountOf(h: PacketHeader): nat
  {
    if h.endOfSession then 0 else h.messageCount
  }

  /** The 22-byte message body of an event. */
  function EncodeEvent(e: MarketEvent): (b: seq<byte>)
    ensures |b| == kMessageBodyLength
  {
    Pow256Widths();
    BeBytes(e.instrumentId, 4) + BeBytes(e.side, 1) + BeBytes(e.event, 1)
      + BeBytes(e.price, 4) + BeBytes(e.quantity, 4) + BeBytes(e.exchangeTs, 8)
  }

  /** The event read from the first 22 bytes of a message body. */
  function DecodeEvent(b: seq<byte>): MarketEvent
    requires |b| >= kMessageBodyLength
  {
    Pow256Widths();
    MarketEvent(BeValue(b[0..4]), b[4], b[5], BeValue(b[6..10]), BeValue(b[10..14]), BeValue(b[14..22]))
  }

  /** The 20-byte packet header followed by the 2-byte msg_len field. */
  function HeaderBytes(session: seq<byte>, sequenceNumber: uint64): (b: seq<byte>)
    requires |session| == kSessionLength
    ensures |b| == kHeaderLength + kMessageHeaderLength
  {
    Pow256Widths();
    session + BeBytes(sequenceNumber, 8) + BeBytes(kMessageCount, 2) + BeBytes(kMessageBodyLength, 2)
  }

  /** A whole 44-byte packet carrying one event. */
  function EncodePacket(session: seq<byte>, sequenceNumber: uint64, e: MarketEvent): (p: seq<byte>)
    requires |session| == kSessionLength
    ensures |p| == kPacketSize
  {
    HeaderBytes(session, sequenceNumber) + EncodeEvent(e)
  }

  /** Decoding the body the encoder wrote returns the original event. */
  lemma DecodeEncodeEvent(e: MarketEvent)
    ensures DecodeEvent(EncodeEvent(e)) == e
  {
    Pow256Widths();
    var b := EncodeEvent(e);
    assert b[0..4] == BeBytes(e.instrumentId, 4);
    assert b[4] == e.side && b[5] == e.event;
    assert b[6..10] == BeBytes(e.price, 4);
    assert b[10..14] == BeBytes(e.quantity, 4);
    assert b[14..22] == BeBytes(e.exchangeTs, 8);
  }

  /** Re-encoding a decoded body reproduces its bytes exactly. */
  lemma EncodeDecodeEvent(b: seq<byte>)
    requires |b| == kMessageBodyLength
    ensures EncodeEvent(DecodeEvent(b)) == b
  {
    Pow256Widths();
    BeBytesOfValue(b[0..4]);
    BeBytesOfValue(b[6..10]);
    BeBytesOfValue(b[10..14]);
    BeBytesOfValue(b[14..22]);
    assert b == b[0..4] + [b[4]] + [b[5]] + b[6..10] + b[10..14] + b[14..22];
  }

  /**
   * Reading back a packet the encoder wrote: the header announces one
   * message with the packet's sequence number and session, msg_len is 22,
   * and the body after offset 22 decodes to the event.
   */
  lemma PacketRoundTrip(session: seq<byte>, sequenceNumber: uint64, e: MarketEvent)
    requires |session| == kSessionLength
    ensures var p := EncodePacket(session, sequenceNumber, e);
      && HeaderOf(p) == PacketHeader(session, sequenceNumber, kMessageCount, false)
      && BeValue(p[kMsgLenOffset..kInstrumentOffset]) == kMessageBodyLength
      && DecodeEvent(p[kInstrumentOffset..]) == e
  {
    Pow256Widths();
    var p := EncodePacket(session, sequenceNumber, e);
    var seqBytes, countBytes, lenBytes := BeBytes(sequenceNumber, 8), BeBytes(kMessageCount, 2), BeBytes(kMessageBodyLength, 2);
    var front := session + seqBytes;
    assert p == front + countBytes + lenBytes + EncodeEvent(e);
    assert |front| == 18;
    assert p[..10] == session;
    assert p[10..18] == seqBytes;
    assert p[18..20] == countBytes;
    assert p[20..22] == lenBytes;
    assert p[22..] == EncodeEvent(e);
    DecodeEncodeEvent(e);
  }
}
