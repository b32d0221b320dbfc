/**
 * The market-event record, its field encodings and the fixed packet layout
 * shared by the exchange simulator (encoder) and the feed handler (decoder).
 */
module Event {
  import opened Types

  const kSessionLength: nat := 10
  /** Session, u64 sequence number and u16 message count: 20 bytes. */
  const kHeaderLength: nat := kSessionLength + 8 + 2
  /** Exactly one message travels in each packet. */
  const kMessageCount: nat := 1
  /** The u16 msg_len field that precedes the message body. */
  const kMessageHeaderLength: nat := 2
  /** Bytes of the message body counted by msg_len: 4 + 1 + 1 + 4 + 4 + 8. */
  const kMessageBodyLength: nat := 4 + 1 + 1 + 4 + 4 + 8
  /** Header, length field and body: 44 bytes. */
  const kPacketSize: nat := kHeaderLength + kMessageHeaderLength + kMessageBodyLength

  /** A session id: exactly kSessionLength bytes. */
  type SessionId = s: seq<byte> | |s| == kSessionLength witness [0, 0, 0, 0, 0, 0, 0, 0, 0, 0]
  const kCancellationPollInterval: nat := 500

  /** A message count of 0xFFFF marks the end of the session. */
  const kEndSession: uint16 := 0xFFFF
  const kMaxMessageCount: uint16 := kEndSession - 1

  const kMaxExchangeEvents: nat := 1000000

  /** Side encodings (enum class Side : std::uint8_t). */
  const kBid: byte := 0
  const kAsk: byte := 1

  /** Event-kind encodings (enum class LevelEvent : std::uint8_t). */
  const kAddLevel: byte := 0
  const kModifyLevel: byte := 1

  /**
   * A book change reported by the exchange. side and event keep the raw
   * byte: the decoder casts the byte to the enum without checking its
   * range, so any value can reach the book.
   */
  datatype MarketEvent = MarketEvent(
    instrumentId: uint32,
    side: byte,
    event: byte,
    price: uint32,
    quantity: uint32,
    exchangeTs: uint64)

  /** Packet offsets of the payload fields, each right after the one before. */
  const kMsgLenOffset: nat := kHeaderLength
  const kInstrumentOffset: nat := kMsgLenOffset + kMessageHeaderLength
  const kSideOffset: nat := kInstrumentOffset + 4
  const kEventOffset: nat := kSideOffset + 1
  const kPriceOffset: nat := kEventOffset + 1
  const kQuantityOffset: nat := kPriceOffset + 4
  const kTimestampOffset: nat := kQuantityOffset + 4
}
