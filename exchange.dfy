/**
 * The exchange simulator's bookkeeping: per instrument and side, a level
 * map and a pool of the prices that have no level; the events it generates
 * from random draws; the history of sent events indexed by sequence
 * number; the send queue; the retransmission replay; and the 44-byte
 * packets it writes.
 *
 * Every random draw is a parameter (Draw, the pool index, the level
 * PickExistingPrice lands on), as is the clock. Sockets, threads, the
 * condition variable and the sleeps between events are not modelled.
 */
module Exchange {
  import opened Types
  import opened Endian
  import opened Event
  import opened Codec
  import opened Levels
  import MoldUdp64

  /** Prices range over 1..kMaxPrice. */
  const kMaxPrice: nat := 100

  /** The session id of every packet the simulator sends: "EXCHANGEID". */
  const kExchangeSession: SessionId := [69, 88, 67, 72, 65, 78, 71, 69, 73, 68]

  /**
   * The level map and the pool split the price range: every price in
   * 1..kMaxPrice is either a level or in the pool, never both, nothing
   * else is in either, and the pool holds each price once.
   */
  ghost predicate Partitioned(levels: LevelMap, pool: seq<uint32>)
  {
    && (forall k | 0 <= k < |pool| :: 1 <= pool[k] <= kMaxPrice && pool[k] !in levels)
    && (forall j, k | 0 <= j < k < |pool| :: pool[j] != pool[k])
    && (forall p | p in levels :: 1 <= p <= kMaxPrice)
    && (forall p: uint32 | 1 <= p <= kMaxPrice :: p in levels || p in pool)
  }

  /** The pool a new book starts with: 1, 2, ..., kMaxPrice in that order. */
  function FullPool(): (pool: seq<uint32>)
  {
    seq(kMaxPrice, k requires 0 <= k => k + 1)
  }

  /** A new book has no levels and every price in its pool. */
  lemma InitialPartitioned()
    ensures |FullPool()| == kMaxPrice
    ensures Partitioned(map[], FullPool())
  {
    var pool := FullPool();
    forall p: uint32 | 1 <= p <= kMaxPrice
      ensures p in pool
    {
      assert pool[p - 1] == p;
    }
  }

  /**
   * Removes the element at i by moving the last element into its place
   * and dropping the last position (avail_prices[i] = back(); pop_back()).
   */
  function SwapRemove(s: seq<uint32>, i: nat): (r: seq<uint32>)
    requires i < |s|
    ensures |r| == |s| - 1
  {
    s[i := s[|s| - 1]][..|s| - 1]
  }

  /** Swap-remove takes out exactly one occurrence of the element at i. */
  lemma SwapRemoveRemovesOne(s: seq<uint32>, i: nat)
    requires i < |s|
    ensures multiset(SwapRemove(s, i)) == multiset(s) - multiset{s[i]}
  {
    var n := |s| - 1;
    if i == n {
      assert s == s[..n] + [s[n]];
    } else {
      var r := SwapRemove(s, i);
      assert s == s[..i] + [s[i]] + s[i + 1..n] + [s[n]];
      assert r == s[..i] + [s[n]] + s[i + 1..n];
    }
  }

  /**
   * Taking the pool price at i for a new level keeps the partition: the
   * price leaves the pool and becomes a level.
   */
  lemma TakeKeepsPartition(levels: LevelMap, pool: seq<uint32>, i: nat, q: uint32)
    requires Partitioned(levels, pool) && i < |pool|
    ensures pool[i] !in levels
    ensures Partitioned(levels[pool[i] := q], SwapRemove(pool, i))
  {
    var p, r, n := pool[i], SwapRemove(pool, i), |pool| - 1;
    var grown := levels[p := q];
    assert forall k | 0 <= k < |r| :: r[k] == if k == i then pool[n] else pool[k];
    forall k | 0 <= k < |r|
      ensures 1 <= r[k] <= kMaxPrice && r[k] !in grown
    {
      if k == i {
        assert pool[n] != pool[i];
      }
    }
    forall x: uint32 | 1 <= x <= kMaxPrice && x !in grown
      ensures x in r
    {
      var k :| 0 <= k < |pool| && pool[k] == x;
      if k == n {
        assert r[i] == x;
      } else {
        assert r[k] == x;
      }
    }
  }

  /** Releasing a level puts its price back in the pool and keeps the partition. */
  lemma ReleaseKeepsPartition(levels: LevelMap, pool: seq<uint32>, p: uint32)
    requires Partitioned(levels, pool) && p in levels
    ensures Partitioned(levels - {p}, pool + [p])
  {
    var grown := pool + [p];
    forall x: uint32 | 1 <= x <= kMaxPrice && x !in levels - {p}
      ensures x in grown
    {
      if x != p {
        var k :| 0 <= k < |pool| && pool[k] == x;
        assert grown[k] == x;
      } else {
        assert grown[|pool|] == x;
      }
    }
  }

  /**
   * The random outcomes one turn of GenerateMarketEvents draws: whether
   * to add (roll against chance_of_add), whether to use a new price (roll
   * against chance_of_new_price), whether to delete (roll against
   * chance_of_delete), the quantity to add, the pool index PickNewPrice
   * draws, the level PickExistingPrice lands on, and the amount a partial
   * reduce takes.
   */
  datatype Draw = Draw(
    addLevel: bool,
    newPrice: bool,
    deleteLevel: bool,
    quantity: uint32,
    poolIndex: nat,
    existing: uint32,
    reduceBy: uint32)

  /** An empty side always adds; otherwise the add roll decides. */
  predicate AddsLevel(levels: LevelMap, d: Draw)
  {
    levels == map[] || d.addLevel
  }

  /**
   * Whether an add takes a new price, as written: always on an empty side,
   * otherwise when the new-price roll says so, even with an empty pool.
   */
  predicate PicksNewPriceAsWritten(levels: LevelMap, d: Draw)
  {
    levels == map[] || d.newPrice
  }

  /** Whether an add takes a new price: as written, but only while the pool has one. */
  predicate PicksNewPrice(levels: LevelMap, pool: seq<uint32>, d: Draw)
  {
    levels == map[] || (d.newPrice && pool != [])
  }

  /** A side whose levels hold every price of the range, one unit each. */
  function FullBook(): (full: LevelMap)
  {
    map p | p in FullPool() :: 1
  }

  /**
   * As written, a side whose levels hold all kMaxPrice prices (so the pool
   * is empty) still draws a new price when the roll says so: PickNewPrice
   * then draws an index from 0..size()-1 of an empty vector.
   */
  lemma FullBookPicksFromEmptyPool(d: Draw)
    requires d.newPrice
    ensures Partitioned(FullBook(), [])
    ensures PicksNewPriceAsWritten(FullBook(), d)
    ensures |FullBook()| == kMaxPrice
  {
    var full, pool := FullBook(), FullPool();
    InitialPartitioned();
    forall p: uint32 | 1 <= p <= kMaxPrice
      ensures p in full
    {
      assert pool[p - 1] == p;
    }
    DistinctCard(pool);
    assert full.Keys == Elements(pool);
  }

  /** The distinct prices a sequence holds. */
  function Elements(s: seq<uint32>): set<uint32>
  {
    set x | x in s
  }

  /** A sequence without repeats has as many distinct elements as positions. */
  lemma {:induction false} DistinctCard(s: seq<uint32>)
    requires forall j, k | 0 <= j < k < |s| :: s[j] != s[k]
    ensures |Elements(s)| == |s|
  {
    if |s| > 0 {
      var init, last := s[..|s| - 1], s[|s| - 1];
      DistinctCard(init);
      assert s == init + [last];
      assert last !in Elements(init);
      assert Elements(s) == Elements(init) + {last};
    }
  }

  /** With the correction, a new price is taken only from a non-empty pool. */
  lemma NewPriceHasPool(levels: LevelMap, pool: seq<uint32>, d: Draw)
    requires Partitioned(levels, pool) && PicksNewPrice(levels, pool, d)
    ensures |pool| > 0
  {
    if levels == map[] {
      var one: uint32 := 1;
      assert one in pool;
    }
  }

  /**
   * The draws are ones the distributions can produce: a pool index in
   * range for a new price, an existing level otherwise, and for a
   * partial reduce an amount in 1..curr-1 (so the level holds at least 2).
   */
  ghost predicate DrawFits(levels: LevelMap, pool: seq<uint32>, d: Draw)
  {
    if AddsLevel(levels, d) then
      if PicksNewPrice(levels, pool, d) then d.poolIndex < |pool| else d.existing in levels
    else
      d.existing in levels && (d.deleteLevel || 1 <= d.reduceBy < levels[d.existing])
  }

  /** Generated reduce amounts stay within the resting quantity. */
  lemma ReduceWithinLevel(levels: LevelMap, pool: seq<uint32>, d: Draw)
    requires DrawFits(levels, pool, d) && !AddsLevel(levels, d) && !d.deleteLevel
    ensures 0 < d.reduceBy < levels[d.existing]
    ensures ReduceLevel(levels, d.existing, d.reduceBy)[d.existing] == levels[d.existing] - d.reduceBy
  {
  }

  /** One side of one instrument in the simulator. */
  class BookState {
    var levels: LevelMap
    var availPrices: seq<uint32>

    ghost predicate Valid()
      reads this
    {
      Partitioned(levels, availPrices)
    }

    /** No levels, and the pool 1..kMaxPrice filled in order. */
    constructor ()
      ensures levels == map[] && availPrices == FullPool()
      ensures Valid()
    {
      var pool: seq<uint32> := [];
      var i := 1;
      while i <= kMaxPrice
        invariant 1 <= i <= kMaxPrice + 1
        invariant pool == FullPool()[..i - 1]
      {
        pool := pool + [i];
        i := i + 1;
      }
      levels := map[];
      availPrices := pool;
      InitialPartitioned();
    }

    /** Takes the pool price at index i (the drawn index), swap-removing it. */
    method PickNewPrice(i: nat) returns (p: uint32)
      requires i < |availPrices|
      modifies this`availPrices
      ensures p == old(availPrices)[i]
      ensures availPrices == SwapRemove(old(availPrices), i)
    {
      p := availPrices[i];
      availPrices := availPrices[i := availPrices[|availPrices| - 1]];
      availPrices := availPrices[..|availPrices| - 1];
    }

    /** Erases the level at p and returns p to the back of the pool. */
    method ReleasePrice(p: uint32)
      modifies this
      ensures levels == old(levels) - {p}
      ensures availPrices == old(availPrices) + [p]
    {
      levels := levels - {p};
      availPrices := availPrices + [p];
    }

    /**
     * The book-state update of one generated event. The levels change
     * exactly as a book applying the event would change (ApplyEvent),
     * an empty side always adds, a reduce never takes more than the level
     * holds, and the partition of the price range is kept.
     */
    method NextLevelEvent(d: Draw) returns (kind: byte, price: uint32, quantity: uint32)
      requires Valid() && DrawFits(levels, availPrices, d)
      modifies this
      ensures Valid()
      ensures levels == ApplyEvent(old(levels), kind, price, quantity)
      ensures kind == kAddLevel <==> AddsLevel(old(levels), d)
      ensures kind == kAddLevel || kind == kModifyLevel
      ensures kind == kAddLevel ==> quantity == d.quantity
      ensures kind == kModifyLevel ==> price in old(levels) && quantity <= old(levels)[price]
      ensures kind == kModifyLevel && !d.deleteLevel ==> 0 < quantity < old(levels)[price]
      ensures 1 <= price <= kMaxPrice
    {
      if levels == map[] || d.addLevel {
        quantity := d.quantity;
        if levels == map[] || (d.newPrice && availPrices != []) {
          TakeKeepsPartition(levels, availPrices, d.poolIndex, quantity);
          price := PickNewPrice(d.poolIndex);
          levels := levels[price := quantity];
        } else {
          price := d.existing;
          levels := levels[price := AddU32(levels[price], quantity)];
        }
        kind := kAddLevel;
      } else {
        price := d.existing;
        var curr := levels[price];
        if d.deleteLevel {
          quantity := curr;
          ReleaseKeepsPartition(levels, availPrices, price);
          ReleasePrice(price);
        } else {
          quantity := d.reduceBy;
          levels := levels[price := curr - quantity];
        }
        kind := kModifyLevel;
      }
    }
  }

  /** The bid and ask sides of one instrument, held by value in the books map. */
  datatype InstrumentState = InstrumentState(bids: BookState, asks: BookState)

  /** A queued event and the sequence number it is sent with. */
  datatype EventToSend = EventToSend(event: MarketEvent, sequenceNumber: uint64)

  /** Every queued item carries the event the log holds for its sequence number. */
  ghost predicate Queued(queue: seq<EventToSend>, log: seq<MarketEvent>)
  {
    forall k | 0 <= k < |queue| ::
      queue[k].sequenceNumber < |log| && queue[k].event == log[queue[k].sequenceNumber]
  }

  /** Logging a new event keeps the queue in agreement, with the new event queued under its number. */
  lemma QueuedExtends(queue: seq<EventToSend>, log: seq<MarketEvent>, e: MarketEvent)
    requires Queued(queue, log) && |log| < U64_LIMIT
    ensures Queued(queue + [EventToSend(e, |log|)], log + [e])
  {
    var q, l := queue + [EventToSend(e, |log|)], log + [e];
    forall k | 0 <= k < |q|
      ensures q[k].sequenceNumber < |l| && q[k].event == l[q[k].sequenceNumber]
    {
      if k < |queue| {
        assert q[k] == queue[k];
      }
    }
  }

  /** Two queues that agree with the log still agree when joined. */
  lemma QueuedJoin(a: seq<EventToSend>, b: seq<EventToSend>, log: seq<MarketEvent>)
    requires Queued(a, log) && Queued(b, log)
    ensures Queued(a + b, log)
  {
    forall k | 0 <= k < |a + b|
      ensures (a + b)[k].sequenceNumber < |log| && (a + b)[k].event == log[(a + b)[k].sequenceNumber]
    {
      if k < |a| {
        assert (a + b)[k] == a[k];
      } else {
        assert (a + b)[k] == b[k - |a|];
      }
    }
  }

  function Min(a: nat, b: nat): nat
  {
    if a < b then a else b
  }

  /**
   * What a retransmission request for count messages from sequence number
   * from replays: the logged events from..from+count-1 in order, cut off
   * at the first sequence number not issued yet.
   */
  function Replayed(log: seq<MarketEvent>, from: nat, count: nat): (r: seq<EventToSend>)
    requires |log| < U64_LIMIT
    ensures |r| == if from < |log| then Min(from + count, |log|) - from else 0
    ensures forall k | 0 <= k < |r| :: r[k] == EventToSend(log[from + k], from + k)
  {
    if from >= |log| then [] else seq(Min(from + count, |log|) - from, k requires 0 <= k < Min(from + count, |log|) - from => EventToSend(log[from + k], from + k))
  }

  /** A replay only queues items that agree with the log. */
  lemma ReplayedQueued(log: seq<MarketEvent>, from: nat, count: nat)
    requires |log| < U64_LIMIT
    ensures Queued(Replayed(log, from, count), log)
  {
  }

  /** Replaying one more message appends the next logged event, while it has been issued. */
  lemma ReplayedGrows(log: seq<MarketEvent>, from: nat, count: nat)
    requires |log| < U64_LIMIT && from + count < |log|
    ensures Replayed(log, from, count + 1) == Replayed(log, from, count) + [EventToSend(log[from + count], from + count)]
  {
    assert |Replayed(log, from, count + 1)| == count + 1;
  }

  /** Once the replay reaches the first sequence number not issued, asking for more adds nothing. */
  lemma ReplayedSaturates(log: seq<MarketEvent>, from: nat, count: nat, more: nat)
    requires |log| < U64_LIMIT && from + count >= |log| && count <= more
    ensures Replayed(log, from, more) == Replayed(log, from, count)
  {
  }

  /**
   * Writes value as width big-endian bytes at offset: the bytes before
   * offset are followed by the encoding, and the bytes after it are kept.
   */
  method WriteField(buf: array<byte>, offset: nat, width: nat, value: nat)
    requires offset + width <= buf.Length && value < Pow256(width)
    modifies buf
    ensures buf[..offset + width] == old(buf[..offset]) + BeBytes(value, width)
    ensures buf[offset + width..] == old(buf[offset + width..])
  {
    WriteBigEndian(buf, offset, width, value);
    assert buf[..offset + width] == buf[..offset] + buf[offset..offset + width];
  }

  /**
   * Writes the packet header for sequence number number: the session, the
   * sequence number, the message count 1 and msg_len, the bytes left in
   * the packet after the length field (22). Returns the offset of the
   * message body; bytes from there on are left alone.
   */
  method WriteMoldUDP64Header(buf: array<byte>, number: uint64) returns (offset: nat)
    requires buf.Length >= kPacketSize
    modifies buf
    ensures offset == kHeaderLength + kMessageHeaderLength
    ensures buf[..offset] == HeaderBytes(kExchangeSession, number)
  {
    Pow256Widths();
    WriteSession(buf);
    offset := kSessionLength;
    WriteField(buf, offset, 8, number);
    offset := offset + 8;
    WriteField(buf, offset, 2, kMessageCount);
    offset := offset + 2;
    var remaining := kPacketSize - (offset + kMessageHeaderLength);
    WriteField(buf, offset, 2, remaining);
    offset := offset + kMessageHeaderLength;
  }

  /** Copies the session id to the front of buf, keeping the bytes after it. */
  method WriteSession(buf: array<byte>)
    requires buf.Length >= kSessionLength
    modifies buf
    ensures buf[..kSessionLength] == kExchangeSession
    ensures buf[kSessionLength..] == old(buf[kSessionLength..])
  {
    forall k | 0 <= k < kSessionLength {
      buf[k] := kExchangeSession[k];
    }
  }

  /**
   * Writes a field after the header and the part of the body already
   * written, so that buf starts with the header and the longer body.
   */
  method AppendField(buf: array<byte>, offset: nat, ghost header: seq<byte>, ghost body: seq<byte>, width: nat, value: nat)
    returns (ghost longer: seq<byte>)
    requires offset == |header| + |body| && offset + width <= buf.Length && value < Pow256(width)
    requires buf[..offset] == header + body
    modifies buf
    ensures longer == body + BeBytes(value, width)
    ensures buf[..offset + width] == header + longer
  {
    WriteField(buf, offset, width, value);
    assert (header + body) + BeBytes(value, width) == header + (body + BeBytes(value, width));
    longer := body + BeBytes(value, width);
  }

  /** Writes the whole packet for a queued event: header, then the body fields in order. */
  method SerializeEvent(buf: array<byte>, next: EventToSend)
    requires buf.Length == kPacketSize
    modifies buf
    ensures buf[..] == EncodePacket(kExchangeSession, next.sequenceNumber, next.event)
  {
    Pow256Widths();
    var event := next.event;
    var offset := WriteMoldUDP64Header(buf, next.sequenceNumber);
    ghost var header := buf[..offset];
    ghost var body: seq<byte> := [];
    body := AppendField(buf, offset, header, body, 4, event.instrumentId);
    offset := offset + 4;
    body := AppendField(buf, offset, header, body, 1, event.side);
    offset := offset + 1;
    body := AppendField(buf, offset, header, body, 1, event.event);
    offset := offset + 1;
    body := AppendField(buf, offset, header, body, 4, event.price);
    offset := offset + 4;
    body := AppendField(buf, offset, header, body, 4, event.quantity);
    offset := offset + 4;
    body := AppendField(buf, offset, header, body, 8, event.exchangeTs);
    assert body == EncodeEvent(event);
    assert buf[..] == buf[..kPacketSize];
  }

  /**
   * The simulator's books_: per instrument, its bid and ask book states,
   * created on first use.
   */
  class InstrumentBooks {
    var books: map<uint32, InstrumentState>

    /** Every book state of every instrument. */
    ghost function Books(): set<BookState>
      reads this
    {
      (set id | id in books :: books[id].bids) + (set id | id in books :: books[id].asks)
    }

    /** Every book state keeps its partition, and no two sides share one. */
    ghost predicate Valid()
      reads this, Books()
    {
      && (forall b | b in Books() :: b.Valid())
      && Distinct()
    }

    /** No two sides, of the same instrument or of two instruments, share a book state. */
    ghost predicate Distinct()
      reads this
    {
      && (forall i, j | i in books && j in books :: books[i].bids != books[j].asks)
      && (forall i, j | i in books && j in books && i != j ::
            books[i].bids != books[j].bids && books[i].asks != books[j].asks)
    }

    /** The levels of a side of an instrument; an instrument not seen yet has none. */
    ghost function LevelsOf(id: uint32, side: byte): LevelMap
      reads this, Books()
    {
      if id !in books then map[]
      else if side == kBid then books[id].bids.levels
      else books[id].asks.levels
    }

    /** The price pool of a side of an instrument; an instrument not seen yet has all prices. */
    ghost function PoolOf(id: uint32, side: byte): seq<uint32>
      reads this, Books()
    {
      if id !in books then FullPool()
      else if side == kBid then books[id].bids.availPrices
      else books[id].asks.availPrices
    }

    constructor ()
      ensures books == map[] && Valid()
    {
      books := map[];
    }

    /**
     * The book state of a side (the bids for side 0, the asks otherwise),
     * creating the instrument with two empty sides on first use. No side
     * of any instrument changes its levels or its pool.
     */
    method GetBook(id: uint32, side: byte) returns (book: BookState)
      requires Valid()
      modifies this
      ensures Valid()
      ensures id in books && books == old(books)[id := books[id]]
      ensures id in old(books) ==> books == old(books)
      ensures id !in old(books) ==> fresh(books[id].bids) && fresh(books[id].asks)
      ensures book == if side == kBid then books[id].bids else books[id].asks
      ensures forall other, otherSide ::
        LevelsOf(other, otherSide) == old(LevelsOf(other, otherSide)) && PoolOf(other, otherSide) == old(PoolOf(other, otherSide))
    {
      if id !in books {
        var bids := new BookState();
        var asks := new BookState();
        books := books[id := InstrumentState(bids, asks)];
        forall b | b in Books()
          ensures b.Valid()
        {
          if b != bids && b != asks {
            assert b in old(Books());
          }
        }
        assert forall i | i in old(books) :: old(books)[i].bids != bids && old(books)[i].asks != asks;
        assert forall i | i in old(books) :: old(books)[i].bids != asks && old(books)[i].asks != bids;
        forall other, otherSide
          ensures LevelsOf(other, otherSide) == old(LevelsOf(other, otherSide))
          ensures PoolOf(other, otherSide) == old(PoolOf(other, otherSide))
        {
          if other != id && other in books {
            assert books[other] == old(books)[other];
          }
        }
      }
      book := if side == kBid then books[id].bids else books[id].asks;
    }

    /**
     * The book-state half of one turn of GenerateMarketEvents: the side's
     * book state (created on first use) moves as NextLevelEvent says, and
     * every other side of every instrument keeps its levels and its pool.
     */
    method StepBook(id: uint32, side: byte, d: Draw) returns (kind: byte, price: uint32, quantity: uint32)
      requires Valid()
      requires DrawFits(LevelsOf(id, side), PoolOf(id, side), d)
      modifies this, Books()
      ensures Valid()
      ensures LevelsOf(id, side) == ApplyEvent(old(LevelsOf(id, side)), kind, price, quantity)
      ensures kind == kAddLevel <==> AddsLevel(old(LevelsOf(id, side)), d)
      ensures kind == kModifyLevel ==> price in old(LevelsOf(id, side)) && quantity <= old(LevelsOf(id, side))[price]
      ensures kind == kModifyLevel && !d.deleteLevel ==> 0 < quantity < old(LevelsOf(id, side))[price]
      ensures 1 <= price <= kMaxPrice
      ensures books.Keys == old(books.Keys) + {id}
      ensures forall other, otherSide | OtherSide(id, side, other, otherSide) ::
        LevelsOf(other, otherSide) == old(LevelsOf(other, otherSide)) && PoolOf(other, otherSide) == old(PoolOf(other, otherSide))
    {
      var book := GetBook(id, side);
      label picked:
      kind, price, quantity := book.NextLevelEvent(d);
      forall b | b in Books()
        ensures b.Valid()
      {
        if b != book {
          assert unchanged@picked(b);
        }
      }
      forall other, otherSide | OtherSide(id, side, other, otherSide)
        ensures LevelsOf(other, otherSide) == old@picked(LevelsOf(other, otherSide))
        ensures PoolOf(other, otherSide) == old@picked(PoolOf(other, otherSide))
      {
        if other in books {
          var b := if otherSide == kBid then books[other].bids else books[other].asks;
          assert b != book;
          assert unchanged@picked(b);
        }
      }
    }
  }

  /** Side otherSide of instrument other is not the side side of instrument id. */
  predicate OtherSide(id: uint32, side: byte, other: uint32, otherSide: byte)
  {
    other != id || (otherSide == kBid) != (side == kBid)
  }

  class ExchangeSimulator {
    /** Per instrument, its bid and ask book states (books_). */
    const books: InstrumentBooks
    /** Events waiting to be sent, in order. */
    var queue: seq<EventToSend>
    /** The event sent with each sequence number (events_history_). */
    const history: array<MarketEvent>
    /** The next sequence number to issue; the ones below it are in history. */
    var sequenceNumber: uint64

    /** The events issued so far, by sequence number. */
    ghost function Log(): seq<MarketEvent>
      reads this, history
      requires sequenceNumber <= history.Length
    {
      history[..sequenceNumber]
    }

    /**
     * The history holds kMaxExchangeEvents slots and no more numbers were
     * issued; the books keep their invariant; every queued item is the
     * logged event of an issued sequence number.
     */
    ghost predicate Valid()
      reads this, history, books, books.Books()
    {
      && history.Length == kMaxExchangeEvents
      && sequenceNumber <= kMaxExchangeEvents
      && books.Valid()
      && Queued(queue, Log())
    }

    /** No books, nothing queued, a history of kMaxExchangeEvents slots, and sequence number 0. */
    constructor ()
      ensures fresh(books) && books.books == map[] && queue == [] && sequenceNumber == 0
      ensures fresh(history) && history.Length == kMaxExchangeEvents
      ensures Valid()
    {
      books := new InstrumentBooks();
      queue := [];
      history := new MarketEvent[kMaxExchangeEvents](_ => MarketEvent(0, 0, 0, 0, 0, 0));
      sequenceNumber := 0;
    }

    /** Appends an event and its sequence number to the send queue. */
    method EnqueueEvent(e: MarketEvent, number: uint64)
      modifies this`queue
      ensures queue == old(queue) + [EventToSend(e, number)]
    {
      queue := queue + [EventToSend(e, number)];
    }

    /**
     * Issues the next sequence number for e, stores e under it in the
     * history and queues e with it.
     */
    method Record(e: MarketEvent) returns (number: uint64)
      requires Valid() && sequenceNumber < kMaxExchangeEvents
      modifies this`sequenceNumber, this`queue, history
      ensures Valid()
      ensures number == old(sequenceNumber) && sequenceNumber == number + 1
      ensures Log() == old(Log()) + [e]
      ensures queue == old(queue) + [EventToSend(e, number)]
    {
      QueuedExtends(queue, Log(), e);
      number := sequenceNumber;
      sequenceNumber := sequenceNumber + 1;
      history[number] := e;
      assert Log() == old(Log()) + [e];
      EnqueueEvent(e, number);
    }

    /**
     * One turn of GenerateMarketEvents for instrument id and side, with
     * the random outcomes d and the clock reading now: the side's book
     * state moves as NextLevelEvent says, the event gets the next
     * sequence number, is logged under it and is queued for sending.
     */
    method GenerateMarketEvent(id: uint32, side: byte, d: Draw, now: uint64) returns (e: MarketEvent, number: uint64)
      requires Valid() && sequenceNumber < kMaxExchangeEvents
      requires DrawFits(books.LevelsOf(id, side), books.PoolOf(id, side), d)
      modifies this, history, books, books.Books()
      ensures Valid()
      ensures e.instrumentId == id && e.side == side && e.exchangeTs == now
      ensures books.LevelsOf(id, side) == ApplyEvent(old(books.LevelsOf(id, side)), e.event, e.price, e.quantity)
      ensures e.event == kAddLevel <==> AddsLevel(old(books.LevelsOf(id, side)), d)
      ensures e.event == kModifyLevel ==> e.price in old(books.LevelsOf(id, side)) && e.quantity <= old(books.LevelsOf(id, side))[e.price]
      ensures number == old(sequenceNumber) && sequenceNumber == old(sequenceNumber) + 1
      ensures Log() == old(Log()) + [e]
      ensures queue == old(queue) + [EventToSend(e, number)]
      ensures books.books.Keys == old(books.books.Keys) + {id}
      ensures forall other, otherSide | OtherSide(id, side, other, otherSide) ::
        && books.LevelsOf(other, otherSide) == old(books.LevelsOf(other, otherSide))
        && books.PoolOf(other, otherSide) == old(books.PoolOf(other, otherSide))
    {
      var kind, price, quantity := books.StepBook(id, side, d);
      e := MarketEvent(id, side, kind, price, quantity, now);
      number := Record(e);
    }

    /**
     * Queues the replay of count messages from sequence number from, one
     * at a time, stopping at the first number not issued yet.
     */
    method Replay(from: uint64, count: uint16)
      requires Valid()
      modifies this`queue
      ensures Valid()
      ensures queue == old(queue) + Replayed(Log(), from, count)
    {
      ghost var log := Log();
      var i := 0;
      while i < count
        invariant 0 <= i <= count
        invariant from + i <= sequenceNumber || i == 0
        invariant queue == old(queue) + Replayed(log, from, i)
      {
        var s := from + i;
        if s >= sequenceNumber {
          ReplayedSaturates(log, from, i, count);
          break;
        }
        ReplayedGrows(log, from, i);
        EnqueueEvent(history[s], s);
        i := i + 1;
      }
      ReplayedQueued(log, from, count);
      QueuedJoin(old(queue), Replayed(log, from, count), log);
    }

    /**
     * One turn of the Retransmitter loop with n bytes of a request in buf.
     * Nothing received or a truncated header: nothing happens. A request
     * with the simulator's own session queues the replay of the requested
     * range, cut off at the first sequence number not issued yet; any
     * other session is ignored.
     */
    method Retransmit(buf: array<byte>, n: int)
      requires Valid() && buf.Length == kHeaderLength && n <= buf.Length
      modifies this`queue
      ensures Valid()
      ensures var replayed :=
          if n >= kHeaderLength && HeaderOf(buf[..n]).session == kExchangeSession
          then Replayed(Log(), HeaderOf(buf[..n]).sequenceNumber, HeaderOf(buf[..n]).messageCount)
          else [];
        queue == old(queue) + replayed
    {
      if n <= 0 {
        return;
      }
      var parsed := MoldUdp64.ParsePacketHeader(buf, n);
      if parsed.Failure? {
        return;
      }
      var h := parsed.value;
      if h.session != kExchangeSession {
        return;
      }
      Replay(h.sequenceNumber, h.messageCount);
    }

    /**
     * One turn of SendDatagrams: takes the event at the front of the queue
     * and writes its packet; with an empty queue nothing happens (the
     * wait is not modelled). The packet's body decodes to the event the
     * history holds for its sequence number.
     */
    method SendNext(buf: array<byte>) returns (sent: Option<EventToSend>)
      requires Valid() && buf.Length == kPacketSize
      modifies this`queue, buf
      ensures Valid()
      ensures old(queue) == [] ==> sent == None && queue == [] && unchanged(buf)
      ensures old(queue) != [] ==> sent == Some(old(queue)[0]) && queue == old(queue)[1..]
      ensures sent.Some? ==>
        && buf[..] == EncodePacket(kExchangeSession, sent.value.sequenceNumber, sent.value.event)
        && sent.value.sequenceNumber < sequenceNumber
        && DecodeEvent(buf[kInstrumentOffset..]) == sent.value.event == history[sent.value.sequenceNumber]
    {
      if queue == [] {
        return None;
      }
      ghost var log := Log();
      var next := queue[0];
      queue := queue[1..];
      assert Queued(queue, log);
      SerializeEvent(buf, next);
      assert Log() == log;
      assert books.Valid();
      PacketRoundTrip(kExchangeSession, next.sequenceNumber, next.event);
      sent := Some(next);
    }
  }
}
