/**
 * The market plant's side of the exchange connection: every datagram
 * received goes through the MoldUDP64 handler, and only a delivered message
 * is decoded and applied to the book of its instrument.
 *
 * The receive loop itself (recvfrom into a 512-byte buffer, forever) is
 * not modelled; OnDatagram is one turn of it, with the datagram's length
 * and arrival time as parameters.
 */
module Feed {
  import opened Types
  import opened Endian
  import opened Event
  import opened Codec
  import opened MoldUdp64
  import opened Levels
  import opened Subscribers
  import opened MarketCore

  /** Size of the receive buffer. */
  const kReceiveBufferSize: nat := 512

  /**
   * Decodes the 22-byte message body starting at data: instrument (u32),
   * side, event kind, price (u32), quantity (u32) and timestamp (u64), all
   * big-endian. The side and kind bytes are taken as they are, without
   * checking that they name a known enumerator.
   */
  method ParseEvent(buf: array<byte>, data: nat) returns (e: MarketEvent)
    requires data + kMessageBodyLength <= buf.Length
    ensures e == DecodeEvent(buf[data..data + kMessageBodyLength])
  {
    Pow256Widths();
    var off := data;
    var instrumentId := ReadBigEndian(buf, off, 4);
    off := off + 4;
    var side := buf[off];
    off := off + 1;
    var event := buf[off];
    off := off + 1;
    var price := ReadBigEndian(buf, off, 4);
    off := off + 4;
    var quantity := ReadBigEndian(buf, off, 4);
    off := off + 4;
    var exchangeTs := ReadBigEndian(buf, off, 8);
    ghost var body := buf[data..data + kMessageBodyLength];
    assert body[0..4] == buf[data..data + 4];
    assert body[6..10] == buf[data + 6..data + 10];
    assert body[10..14] == buf[data + 10..data + 14];
    assert body[14..22] == buf[data + 14..data + 22];
    e := MarketEvent(instrumentId, side, event, price, quantity, exchangeTs);
  }

  /** What one turn of the receive loop did with a datagram. */
  datatype Outcome =
    | Skipped                                  // recvfrom returned nothing
    | Truncated(error: PacketTruncatedError)   // logged; the loop goes on
    | NotDelivered                             // gap, duplicate or end of session
    | Applied(event: MarketEvent)              // decoded and pushed to its book
    | UnknownInstrument(event: MarketEvent)    // Book(id) throws: no book for the id

  class ExchangeFeed {
    const protocol: MoldUDP64
    const books: BookManager

    /** Every subscriber registered with any book is in queues. */
    ghost predicate Covers(queues: set<Subscriber>)
      reads books.books.Values
    {
      forall b | b in books.books.Values :: b.subscriptions.Values <= queues
    }

    /** A feed starts with a client whose next expected sequence number is 0 (unset). */
    constructor (books: BookManager)
      ensures this.books == books && fresh(protocol)
      ensures protocol.State() == InitialState(0)
    {
      this.books := books;
      protocol := new MoldUDP64(0);
    }

    /** Routing e, measured against the state before. */
    twostate predicate Routed(e: MarketEvent, queues: set<Subscriber>)
      reads books.books.Values, queues
    {
      books.RoutedFrom(e, queues, old(books.BookViews()), old(QueueViews(queues)))
    }

    /**
     * Applies a delivered message: the event read from the 22 bytes at
     * data goes to the book of its instrument, which applies it and fans
     * it out (Routed). An id with no book has nowhere to go.
     */
    method HandleEvent(buf: array<byte>, data: nat, ghost queues: set<Subscriber>) returns (outcome: Outcome)
      requires data + kMessageBodyLength <= buf.Length
      requires books.Valid() && Covers(queues)
      modifies books.books.Values, queues`updates
      ensures books.Valid()
      ensures outcome.Applied? || outcome.UnknownInstrument?
      ensures outcome.event == DecodeEvent(buf[data..data + kMessageBodyLength])
      ensures outcome.UnknownInstrument? <==> outcome.event.instrumentId !in books.books
      ensures outcome.UnknownInstrument? ==> unchanged(books.books.Values) && unchanged(queues)
      ensures outcome.Applied? ==> Routed(outcome.event, queues)
    {
      var e := ParseEvent(buf, data);
      var book := books.Book(e.instrumentId);
      if book.None? {
        return UnknownInstrument(e);
      }
      var b := book.value;
      assert b in books.books.Values;
      ghost var before, queued := books.BookViews(), QueueViews(queues);
      assert before[e.instrumentId] == BookView(b.bids, b.asks, b.subscriptions);
      b.PushEventToSubscribers(e);
      forall sid | sid in old(b.subscriptions)
        ensures old(b.subscriptions[sid]) in queues
        ensures sid in b.subscriptions <==> queued[old(b.subscriptions[sid])].alive
      {
        assert old(b.subscriptions[sid]) in old(b.subscriptions.Values);
      }
      outcome := Applied(e);
      assert books.RoutedFrom(e, queues, before, queued);
    }

    /**
     * One turn of the receive loop with n bytes received into buf at time
     * now. Nothing received: skipped. Shorter than a header: the
     * truncation is reported and nothing changes. Otherwise the client
     * moves as Step says, and exactly the delivered messages are handed to
     * HandleEvent, decoded from the 22 bytes after the header. queues holds
     * (at least) every subscriber registered with the books when the turn
     * starts.
     */
    method OnDatagram(buf: array<byte>, n: int, now: int, ghost queues: set<Subscriber>) returns (outcome: Outcome)
      requires buf.Length == kReceiveBufferSize && n <= buf.Length
      requires n >= kHeaderLength ==> NoWrap(HeaderOf(buf[..n]))
      requires books.Valid() && Covers(queues)
      modifies protocol, books.books.Values, queues`updates
      ensures books.Valid()
      ensures n <= 0 ==> outcome == Skipped
      ensures 0 < n < kHeaderLength ==> outcome == Truncated(PacketTruncatedError(n, kHeaderLength))
      ensures n < kHeaderLength ==> protocol.State() == old(protocol.State())
      ensures n >= kHeaderLength ==>
        (protocol.State(), outcome.Applied? || outcome.UnknownInstrument?) == Step(old(protocol.State()), HeaderOf(buf[..n]), now)
      ensures outcome.Applied? || outcome.UnknownInstrument? ==>
        && outcome.event == DecodeEvent(buf[kInstrumentOffset..kPacketSize])
        && (outcome.UnknownInstrument? <==> outcome.event.instrumentId !in books.books)
      ensures outcome.Applied? ==> Routed(outcome.event, queues)
      ensures !outcome.Applied? ==> unchanged(books.books.Values) && unchanged(queues)
    {
      if n <= 0 {
        return Skipped;
      }
      ghost var before, queued, packet := books.BookViews(), QueueViews(queues), buf[..n];
      var r := protocol.HandlePacket(buf, n, now);
      assert books.BookViews() == before && QueueViews(queues) == queued && buf[..n] == packet;
      outcome := Dispatch(buf, r, queues);
      assert buf[..n] == packet;
    }

    /**
     * What the feed does with the client's verdict r on the packet in buf:
     * a truncation is reported, an undelivered packet is dropped, and a
     * delivered message goes to HandleEvent.
     */
    method Dispatch(buf: array<byte>, r: Result<bool, PacketTruncatedError>, ghost queues: set<Subscriber>)
      returns (outcome: Outcome)
      requires r == Success(true) ==>
        protocol.messageView.data == kInstrumentOffset && kPacketSize <= buf.Length
      requires books.Valid() && Covers(queues)
      modifies books.books.Values, queues`updates
      ensures books.Valid()
      ensures r.Failure? ==> outcome == Truncated(r.error)
      ensures r == Success(false) ==> outcome == NotDelivered
      ensures r == Success(true) <==> outcome.Applied? || outcome.UnknownInstrument?
      ensures outcome.Applied? || outcome.UnknownInstrument? ==>
        && outcome.event == DecodeEvent(buf[kInstrumentOffset..kPacketSize])
        && (outcome.UnknownInstrument? <==> outcome.event.instrumentId !in books.books)
      ensures outcome.Applied? ==> Routed(outcome.event, queues)
      ensures !outcome.Applied? ==> unchanged(books.books.Values) && unchanged(queues)
    {
      match r
      case Failure(error) =>
        outcome := Truncated(error);
      case Success(delivered) =>
        if !delivered {
          outcome := NotDelivered;
        } else {
          outcome := HandleEvent(buf, protocol.messageView.data, queues);
        }
    }
  }
}
