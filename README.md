# MarketDataFeedHandler core in Dafny

This project models the sequential core of MarketDataFeedHandler:
- an exchange simulator that publishes order-book level events over MoldUDP64;
- a market plant that receives them, keeps one order book per instrument and fans events out to subscribers.

Every public operation is one atomic step. Sockets, threads, clocks and random number generators are not modelled; the values they would produce are parameters.

The modules follow the program's structure:

- `Types`: fixed-width integer types, `Option`/`Result`, and 32-bit wrap-around addition (`AddU32`).
- `Endian`: the big-endian value of a byte window (`BeValue`) and its inverse (`BeBytes`). It also has the in-place `ReadBigEndian`/`WriteBigEndian` loops over a byte array, proved against them.
- `Event`: the `Side`/`LevelEvent` encodings, `MarketEvent`, and the 44-byte packet layout constants.
- `Codec`: the pure wire format, as header parsing, event encoding and decoding, and whole-packet encoding, with byte-exact round trips.
- `MoldUdp64`: the MoldUDP64 client. `Step` is the per-packet state machine as a function. The class `MoldUDP64` has the fields of the C++ handler, and its methods are proved to move them exactly as `Step` says. The lemmas state the protocol rules (bootstrap, duplicates, gap open/widen/close, end of session, advance by one) and properties of whole packet traces.
- `Levels`: a side's level map (`price -> quantity`), the add (upsert) and reduce (erase or subtract) rules, and the depth-bounded best-first view used by snapshots.
- `MarketCore`: the plant's `OrderBook`. It holds bid and ask level maps and a registry of subscriber handles that fan-out prunes of dead entries. The module also has `BookManager`, which holds one book per configured instrument.
- `Subscribers`: a subscriber's FIFO update queue and its set of followed instruments.
- `MarketServer`: the plant server's subscriber-id counter and registry, and subscribing a subscriber to books (one snapshot queued per newly followed instrument).
- `Feed`: one turn of the plant's receive loop, covering the client handler, event decoding and routing to the instrument's book.
- `Exchange`: the simulator's bookkeeping:
  - per instrument and side, a level map and a pool of free prices that partition 1..100;
  - event generation from random draws;
  - the event history indexed by sequence number and the send queue;
  - the retransmission replay and the 44-byte packets it writes.

Where the two disagree, the model follows the source code:
- The session handling differs from the protocol description:
  - `handle_packet` copies the packet's session into the handler on every packet of at least 20 bytes;
  - no packet is dropped for carrying an unknown session.

  `Step` does the same.

The body of `Subscriber`'s constructor is not shown. The comments at src/market/server/market_plant.h:44 and src/market/market_plant.cpp:225 say its queue should start with one snapshot per subscribed instrument. In the model the constructor leaves the queue empty, and `MarketServer.Enrol` queues those snapshots right after construction, when it registers the subscriber with their books. So `AddSubscriber` ends with them queued.

## Model

| member | source | states |
|---|---|---|
| Types.AddU32 | src/market/market_core.h:43 | the sum of two 32-bit quantities wraps around modulo 2^32, as `+=` on a `uint32_t` does |
| Endian.BeValue | src/network/utils/endian.h:11-20 | the big-endian value of n bytes is below 256^n |
| Endian.BeBytes | src/network/utils/endian.h:22-28 | the n big-endian bytes of a value below 256^n have length n and read back as that value |
| Endian.BeBytesOfValue | src/network/utils/endian.h:11-28 | writing back the value read from a byte window reproduces the same bytes |
| Endian.BeValueInjective | src/network/utils/endian.h:11-20 | equal-width windows with equal values are equal byte for byte |
| Endian.BeValueLeadingByte | src/network/utils/endian.h:14-17 | the first byte is the most significant: value([b] + s) = b * 256^len(s) + value(s) |
| Endian.SingleByteUnchanged | src/network/utils/endian.h:26 | a 1-byte value is stored as itself and reads back unchanged |
| Endian.BeValueDropLast | src/network/utils/endian.h:25-26 | the last byte is the value mod 256 and the rest is the value shifted right 8 bits |
| Endian.ReadBigEndian | src/network/utils/endian.h:11-20 | the shift-and-or loop returns the big-endian value of exactly the bytes [offset, offset+width) |
| Endian.WriteBigEndian | src/network/utils/endian.h:22-28 | the loop writes the value's big-endian bytes at [offset, offset+width), most significant first, and leaves every other byte unchanged |
| Endian.WriteThenRead | src/network/moldudp64_client.h:27-44 | reading a window just written returns the written value, and nothing outside the window changed |
| Codec.HeaderOf | moldudp64_client.cpp:56-67 | the header takes the first 10 bytes as session; a count of 0xFFFF is end of session, counted as 0; otherwise the count is the u16 at 18-19 and at most 0xFFFE |
| Codec.DecodeEvent | src/network/exchange_feed.cpp:75-89 | the event read from a 22-byte body: instrument, side, kind, price, quantity and timestamp big-endian at body offsets 0, 4, 5, 6, 10, 14; `DecodeEncodeEvent` and `EncodeDecodeEvent` make it the exact inverse of `EncodeEvent` |
| Codec.EncodeEvent | src/app/exchange/exchange.cpp:218-233 | an event body is 22 bytes |
| Codec.HeaderBytes | src/app/exchange/exchange.cpp:237-255 | the header plus message length is 22 bytes |
| Codec.EncodePacket | src/app/exchange/exchange.cpp:214-235 | a packet is kPacketSize (44) bytes |
| Codec.DecodeEncodeEvent | src/network/exchange_feed.cpp:75-89 | decoding the encoded body of any event returns the event |
| Codec.EncodeDecodeEvent | src/network/exchange_feed.cpp:75-89 | any 22-byte body, even one with side or kind bytes outside the enumerations, re-encodes to itself |
| Codec.PacketRoundTrip | src/app/exchange/exchange.cpp:237-255 | a written packet carries the session, the sequence number, count 1 and length 22 in its header and decodes after offset 22 to the event |
| Levels.UpdateLevel | src/market/market_core.h:40-44 | an add creates the level with the quantity or adds the quantity to the resting one; other levels are untouched |
| Levels.ModifyLevel | src/market/market_core.h:46-53 | a reduce by at least the resting quantity erases the level, a smaller one subtracts; other levels are untouched |
| Levels.ReduceLevel | src/market/market_plant.cpp:41-51 | a reduce at a price with no level changes nothing, otherwise it is ModifyLevel |
| Levels.ApplyEvent | src/market/market_plant.cpp:182-186 | an add event upserts; any other event kind is applied as a reduce |
| Levels.ReduceKeepsNoZeroLevels | src/market/market_core.h:46-53 | a reduce never leaves a level of quantity 0 and never creates a level |
| Levels.AddKeepsNoZeroLevels | src/market/market_core.h:40-44 | a positive add without overflow keeps all levels positive and raises the level by exactly the quantity |
| Levels.ReduceUndoesAdd | src/market/market_plant.cpp:33-51 | reducing by the quantity just added restores the previous levels |
| Levels.BestOf | src/market/market_core.h:56-57 | a non-empty side has a best price: highest for bids, lowest for asks |
| Levels.Best | src/market/market_core.h:56-57 | the first price in the side's iteration order beats every other price |
| Levels.TopRows | src/market/market_plant.cpp:63-85 | the depth walk yields exactly depth rows |
| Levels.TopRowsIsDepthView | src/market/market_plant.cpp:60-85 | the rows are resting levels in strict best-first order with no level skipped, followed by padding rows only |
| Levels.AllPadding | src/market/market_plant.cpp:69-71 | an empty side shows only padding rows |
| Levels.TopRowsShowsAll | src/market/market_plant.cpp:60-85 | when depth is at least the number of levels, every level is shown |
| MoldUdp64.RecoveryOf | src/network/moldudp/moldudp64.h:65-68 | none = unknown, 0 = synchronized, a positive value = recovering up to that exclusive bound |
| MoldUdp64.ViewOf | src/network/moldudp/moldudp64.h:22-25 | the delivered message starts after the header and message length and runs to the end of the datagram |
| MoldUdp64.ParsePacketHeader | src/network/moldudp/moldudp64.h:15-40 | fails with PacketTruncatedError(len, 20) exactly when len < 20, otherwise returns the parsed header with a separate end-of-session flag |
| MoldUdp64.Step | moldudp64_client.cpp:52-122 | `handle_packet` as a function of the state, the parsed header and now: the session is copied, an unset expected number is bootstrapped, then the gap, duplicate and in-order branches; the lemmas below state each branch's effect and the multi-packet properties |
| MoldUdp64.WithRequest | moldudp64_client.cpp:124-128 | a request logs its start sequence number and stamps the time, changing nothing else |
| MoldUdp64.FirstPacketBootstraps | moldudp64_client.cpp:71-73 | a fresh handler adopts the first packet's sequence number (not 1), becomes synchronized and delivers unless the session ended |
| MoldUdp64.DuplicateIgnored | moldudp64_client.cpp:96-97 | a packet below the expected number changes nothing but the session and sends no request |
| MoldUdp64.GapStartsRecovery | moldudp64_client.cpp:75-86 | a gap while unknown or synchronized sets the bound to seq + count and requests from the expected number at once |
| MoldUdp64.GapWhileRecovering | moldudp64_client.cpp:87-92 | a gap while recovering widens the bound to max(old, seq + count) and re-requests only after more than 1000 ms |
| MoldUdp64.InOrderPacket | moldudp64_client.cpp:99-120 | an in-order packet delivers unless it ends the session; unknown becomes synchronized, reaching the bound ends recovery, otherwise it requests from seq + count |
| MoldUdp64.StepAdvancesByOne | moldudp64_client.cpp:116-132 | the cursor moves by exactly 1 when a message is delivered, whatever the count, and otherwise stays; at most one request per packet |
| MoldUdp64.StepKeepsRecoveryAhead | moldudp64_client.cpp:99-113 | with single-message packets, while recovering the cursor stays below the bound |
| MoldUdp64.InitialRecoveryAhead | moldudp64_client.cpp:49-50 | a new handler starts with recovery state unknown |
| MoldUdp64.InOrderReplay | moldudp64_client.cpp:94-120 | a run of consecutive single-message packets delivers each, advances the cursor by their number and sends no request |
| MoldUdp64.RecoveryCloses | moldudp64_client.cpp:99-113 | retransmitted packets that fill a gap deliver each message, end at the bound, leave the handler synchronized and log one request per packet but the last |
| MoldUdp64.GapsWithinTimeoutSendNothing | moldudp64_client.cpp:87-92 | gap packets arriving within the timeout deliver nothing, send no request, keep the cursor, and the bound never shrinks and covers each packet |
| MoldUdp64.MoldUDP64.constructor | moldudp64_client.cpp:49-50 | the handler starts with the given expected number, recovery unknown and no requests |
| MoldUdp64.MoldUDP64.SetSession | src/network/moldudp/moldudp64.h:54 | installs a 10-byte session and marks it set, changing nothing else |
| MoldUdp64.MoldUDP64.HandlePacket | moldudp64_client.cpp:52-122 | a datagram under 20 bytes is rejected with PacketTruncatedError before any field changes; otherwise the fields move as Step says and the result is true exactly when a message was delivered |
| MoldUdp64.MoldUDP64.Advance | moldudp64_client.cpp:69-121 | the field-by-field update of handle_packet equals Step; the message view changes only on delivery |
| MoldUdp64.MoldUDP64.Request | moldudp64_client.cpp:124-128 | sending a request logs it and stamps last_request_sent with now |
| MoldUdp64.MoldUDP64.Read | moldudp64_client.cpp:130-132 | reading advances the expected number by one and sets the message view |
| MarketCore.OrderBook.constructor | src/market/market_core.h:26 | a new book has its id and depth, no levels and no subscriptions |
| MarketCore.OrderBook.AddOrder | src/market/market_plant.cpp:33-39 | an add upserts the level on the event's side only |
| MarketCore.OrderBook.RemoveOrder | src/market/market_plant.cpp:41-51 | a reduce applies ReduceLevel on the event's side only |
| MarketCore.OrderBook.Snapshot | src/market/market_plant.cpp:53-89 | the loop produces depth rows per side, bids best-first descending and asks ascending, padded when a side runs out |
| MarketCore.OrderBook.PushEventToSubscribers | src/market/market_core.h:22-28 | the event changes its own side as ApplyEvent says; dead registrations are dropped and every live subscriber gets the event appended to its queue |
| MarketCore.OrderBook.FanOut | src/market/market_plant.cpp:253-259 | the registry loses exactly its dead handles, and each live subscriber's queue gains exactly this event at the back |
| MarketCore.OrderBook.InitializeSubscription | src/market/market_plant.cpp:298-301 | registers the subscriber under its id (at most once) and queues one snapshot of the current book behind its pending updates; the levels are unchanged |
| MarketCore.OrderBook.CancelSubscription | src/market/market_core.h:32 | removes only that id from the registry and leaves the levels unchanged |
| MarketCore.NextRow | src/market/market_plant.cpp:63-85 | one step of the depth walk consumes one row of the best-first view |
| MarketCore.ConfiguredIds | src/market/market_plant.cpp:117-123 | the configured ids are exactly the ids in the instrument list |
| MarketCore.Kept | src/market/market_core.h:59 | the pruned registry keeps exactly the live handles, unchanged |
| MarketCore.BookManager.constructor | src/market/market_plant.cpp:117-123 | one empty book per configured id, the first entry for an id giving its depth |
| MarketCore.BookManager.Book | src/market/market_plant.cpp:125 | the book of a configured id, and None for an unknown id (where `.at` throws) |
| Subscribers.Subscriber.constructor | src/market/server/market_plant.h:47 | a subscriber starts with its identifier, the requested instruments as its set, and an empty queue |
| Subscribers.Subscriber.Subscribe | src/market/server/market_plant.h:49 | returns true exactly when the id was new; the set gains the id and a repeat changes nothing |
| Subscribers.Subscriber.Unsubscribe | src/market/server/market_plant.h:51 | the set loses exactly that id |
| Subscribers.Subscriber.Enqueue | src/market/server/market_plant.h:53 | the update goes to the back of the queue; the consumer is signalled exactly when the queue was empty |
| Subscribers.Subscriber.WaitDequeue | src/market/server/market_plant.h:55 | takes the front of the queue, or reports that none is waiting |
| Subscribers.Subscriber.Expire | src/market/server/market_plant.h:96 | the subscriber is no longer alive, so weak references to it are dead |
| MarketServer.SnapshotOf | src/market/market_plant.cpp:298-301 | a subscription snapshot is tagged with its instrument |
| MarketServer.SnapshotOfIsDepthView | src/market/market_plant.cpp:60-85 | both sides of a snapshot are the depth-bounded best-first views of the book |
| MarketServer.Views | src/market/market_plant.cpp:298-301 | one snapshot per book, of that book's current levels |
| MarketServer.HoldsSnapshotsAppend | src/market/server/market_plant.h:44 | queuing one more instrument's snapshot keeps the queue at one snapshot per subscribed instrument |
| MarketServer.JoinBook | src/market/market_plant.cpp:298-301 | registers with one book and queues that book's snapshot; no level and no other registry changes |
| MarketServer.SubscribeBooks | src/market/market_plant.cpp:298-301 | every book in the set registers the subscriber and queues one snapshot behind its pending updates; no level changes |
| MarketServer.Requested | src/market/server/market_plant.h:47 | the requested set is exactly the requested ids |
| MarketServer.SubscribeAll | src/market/market_plant.cpp:236-237 | the subscriber follows the union of old and requested ids; the result is the ids that were new |
| MarketServer.FirstUnknown | src/market/market_plant.cpp:125 | the first requested id with no book (where `book`'s `.at` throws), or none exactly when every requested id has a book |
| MarketServer.FindUnknown | src/market/market_plant.cpp:125 | looking up each requested id's book in turn stops at exactly FirstUnknown |
| MarketServer.FollowAll | src/market/market_plant.cpp:295-304 | a request naming an id with no book reports the first such id and changes nothing; otherwise new instruments are followed, registered with their books and snapshotted; repeats change nothing; no level changes |
| MarketServer.Enrol | src/market/server/market_plant.h:44-47 | a new subscriber follows the requested instruments and holds one snapshot per instrument; a requested id with no book is reported and no book changes |
| MarketServer.MarketPlantServer.HeldBy | src/market/server/market_plant.h:96 | the handle registered under an id, if any |
| MarketServer.MarketPlantServer.constructor | src/market/server/market_plant.h:75 | a server over the given books starts with id counter 1 and no subscribers |
| MarketServer.MarketPlantServer.InitSubscriber | src/market/server/market_plant.h:90-92 | issues the counter's value, non-zero and not yet registered, with the session key, and increments the counter |
| MarketServer.MarketPlantServer.AddSubscriber | src/market/server/market_plant.h:83 | issues an id, builds and enrols the subscriber, and registers it under its id; a requested id with no book fails with that id, and then no id is issued and nothing changes |
| MarketServer.MarketPlantServer.RemoveSubscriber | src/market/server/market_plant.h:85 | erases only that id from the registry |
| MarketServer.MarketPlantServer.UpdateSubscriptions | src/market/market_plant.cpp:295-304 | unauthorized exactly when the id is not registered and live with a matching session key; a request naming an id with no book fails with the first such id; a refusal changes nothing; an accepted request follows the instruments as FollowAll says |
| Feed.ParseEvent | src/network/exchange_feed.cpp:75-89 | reads instrument, side, kind, price, quantity and timestamp at body offsets 0, 4, 5, 6, 10, 14, which is DecodeEvent of the 22 bytes (`parse_event` in src/market/market_plant.cpp is the same) |
| Feed.ExchangeFeed.constructor | src/network/exchange_feed.cpp:15-19 | the feed's handler starts at expected sequence number 0 |
| Feed.ExchangeFeed.HandleEvent | src/network/exchange_feed.cpp:70-73 | the decoded event is Routed: its own instrument's book moves as ApplyEvent says, drops its dead registrations and appends the event to each live subscriber's queue; every other book and every other queue (subscribers not registered with that book) is unchanged; an unknown instrument changes nothing |
| Feed.ExchangeFeed.Dispatch | src/network/exchange_feed.cpp:55-62 | a truncation is reported, an undelivered packet is dropped, and a delivered message is decoded and Routed as HandleEvent says; nothing else changes books or queues |
| Feed.ExchangeFeed.OnDatagram | src/network/exchange_feed.cpp:51-63 | an empty read is skipped; a truncated datagram is reported and changes nothing; otherwise the handler moves as Step says; a delivered message decoded from bytes 22..44 is Routed to its book and subscribers (the same Routed as HandleEvent), and when nothing is delivered no book and no queue changes |
| Exchange.InitialPartitioned | src/app/exchange/exchange.cpp:23-29 | the pool 1..100 with no levels partitions the price range |
| Exchange.SwapRemove | src/app/exchange/exchange.cpp:194-196 | swap-with-last and pop shortens the pool by one |
| Exchange.SwapRemoveRemovesOne | src/app/exchange/exchange.cpp:190-198 | swap-remove takes exactly the drawn occurrence out of the pool |
| Exchange.TakeKeepsPartition | src/app/exchange/exchange.cpp:102-104 | a price taken from the pool has no level, and giving it a level keeps the partition |
| Exchange.ReleaseKeepsPartition | src/app/exchange/exchange.cpp:209-212 | erasing a level and returning its price to the pool keeps the partition |
| Exchange.PicksNewPriceAsWritten | src/app/exchange/exchange.cpp:102 | the guard as written: an add takes a new price on an empty side or when the new-price roll says so, with no look at the pool; `FullBookPicksFromEmptyPool` shows it reaching an empty pool |
| Exchange.FullBookPicksFromEmptyPool | src/app/exchange/exchange.cpp:102 | as written, a side holding all 100 prices has an empty pool and still takes a new price when the roll says so |
| Exchange.DistinctCard | src/app/exchange/exchange.cpp:26-27 | a pool without repeats holds as many prices as positions |
| Exchange.NewPriceHasPool | src/app/exchange/exchange.cpp:190-191 | with the correction, a new price is drawn only from a non-empty pool |
| Exchange.ReduceWithinLevel | src/app/exchange/exchange.cpp:129-133 | a partial reduce takes 1..curr-1 and leaves at least 1 |
| Exchange.BookState.constructor | src/app/exchange/exchange.cpp:23-29 | a side starts with no levels and the pool 1..100 in order |
| Exchange.BookState.PickNewPrice | src/app/exchange/exchange.cpp:190-198 | returns the pool price at the drawn index and swap-removes it |
| Exchange.BookState.ReleasePrice | src/app/exchange/exchange.cpp:209-212 | erases the level and appends the price to the pool |
| Exchange.BookState.NextLevelEvent | src/app/exchange/exchange.cpp:89-141 | an empty side always adds; the levels change exactly as ApplyEvent of the generated event; a reduce removes at most the resting quantity (all of it on delete); prices stay in 1..100 and the partition is kept. It models the corrected pool check; the as-written choice is `PicksNewPriceAsWritten`/`FullBookPicksFromEmptyPool` (see Findings) |
| Exchange.QueuedExtends | src/app/exchange/exchange.cpp:143-150 | queuing the newly logged event under its number keeps every queued item equal to the history entry for its number |
| Exchange.QueuedJoin | src/app/exchange/exchange.cpp:172-180 | replayed items appended to a queue consistent with the history keep it consistent |
| Exchange.Replayed | src/app/exchange/exchange.cpp:172-180 | the replay of [seq, seq+count) is clipped to the issued numbers, and its k-th item is history[seq+k] with number seq+k |
| Exchange.ReplayedQueued | src/app/exchange/exchange.cpp:176-178 | every replayed item matches the history |
| Exchange.ReplayedGrows | src/app/exchange/exchange.cpp:176-178 | one more loop turn below the issued numbers queues one more history entry |
| Exchange.ReplayedSaturates | src/app/exchange/exchange.cpp:177 | once the next number is not issued, asking for more adds nothing |
| Exchange.WriteField | src/app/exchange/exchange.cpp:218-233 | one field write appends the field's big-endian bytes to the written prefix and leaves the rest of the buffer as it was |
| Exchange.WriteSession | src/app/exchange/exchange.cpp:240 | the first 10 bytes become the session and the rest is untouched |
| Exchange.AppendField | src/app/exchange/exchange.cpp:214-235 | writing the next field extends the packet's written prefix by that field |
| Exchange.WriteMoldUDP64Header | src/app/exchange/exchange.cpp:237-255 | writes session, sequence number, count 1 and length 22 in bytes 0..21 and returns 22 |
| Exchange.SerializeEvent | src/app/exchange/exchange.cpp:214-235 | the 44-byte buffer holds exactly the encoded packet of the event and its number |
| Exchange.InstrumentBooks.constructor | src/app/exchange/exchange.h:75 | no instrument has book state yet |
| Exchange.InstrumentBooks.GetBook | src/app/exchange/exchange.cpp:263-266 | returns the instrument's bid or ask state, creating both fresh when the instrument is new, and no other side changes |
| Exchange.InstrumentBooks.StepBook | src/app/exchange/exchange.cpp:85-141 | the chosen side moves as NextLevelEvent says, every other instrument and side keeps its levels and pool |
| Exchange.ExchangeSimulator.constructor | src/app/exchange/exchange.cpp:54-57 | no books, an empty queue, kMaxExchangeEvents history slots and sequence number 0 |
| Exchange.ExchangeSimulator.EnqueueEvent | src/app/exchange/exchange.cpp:184-188 | the event and its number go to the back of the send queue |
| Exchange.ExchangeSimulator.Record | src/app/exchange/exchange.cpp:143-150 | the event gets the next sequence number, is stored under it in the history and queued with it; numbers are consecutive from 0 |
| Exchange.ExchangeSimulator.GenerateMarketEvent | src/app/exchange/exchange.cpp:83-151 | one generated event for the drawn instrument and side: its book moves as the event says, other books are untouched, and the event is logged and queued under the next number |
| Exchange.ExchangeSimulator.Replay | src/app/exchange/exchange.cpp:173-179 | the loop queues exactly Replayed(history, seq, count) |
| Exchange.ExchangeSimulator.Retransmit | src/app/exchange/exchange.cpp:157-182 | a request with the simulator's session queues the replay of the requested range; an empty or truncated read or another session changes nothing |
| Exchange.ExchangeSimulator.SendNext | src/app/exchange/exchange.cpp:63-79 | pops the front of the queue and writes its packet, whose body decodes to the history entry for its number |

## Left out

- Sockets, UDP send/receive, `connect`/`bind`, `ConstructIpv4`, the endless receive loops and `SendDatagrams`' wait are I/O. Each loop is modelled as one turn (`OnDatagram`, `Retransmit`, `SendNext`), with the received bytes and length as parameters.
- Threads, mutexes, condition variables, atomics and the 500 ms cancellation polling in `WaitDequeue` are not modelled: every operation is one atomic step and `WaitDequeue` does not block. The "signal" of `Enqueue` is its result.
- Clocks (`Clock::now()`, `CurrentTime()`) become a `now` parameter, and `sleep_for` is not modelled.
- Random generation (`mt19937_64`, the distributions, `PickExistingPrice`'s random advance, `SessionGenerator::Generate`) is not modelled. The outcomes are the `Draw` parameter and the session key argument, constrained by `DrawFits`.
- The body of `request()` is not shown. A request is modelled as its start sequence number appended to a ghost log.
- The body of the newer `Read(buf, len)` is not shown. `ViewOf` assumes the message starts after the 2-byte message length.
- gRPC and protobuf are not modelled: `StreamUpdates`, `ConstructEventUpdate`, filling `ms::SnapshotUpdate`, and the subscriber client in src/app/subscriber/subscriber.h. An update is a plain datatype.
- Terminal rendering in `Snapshot` (ANSI escapes, `setw`) is left out: only the depth-limited row selection is modelled.
- The CLI, configuration parsing and CPU pinning are left out. The instrument list is an input sequence of (id, depth).
- `GenerateHeartbeats` is declared in src/app/exchange/exchange.h but has no body in the source, so it is not part of this model.
- src/network/moldudp64.h repeats the moldudp interface in snake_case and is not modelled separately. The root market_plant.cpp is an empty draft and is not part of this model.
- The older `ExchangeFeed::handle_event` (src/market/market_plant.cpp:179-189) prints a snapshot after each event. The model covers the newer `HandleEvent`, whose routing it shares.
- Books with a throwing `.at` are modelled without exceptions: `BookManager.Book` returns `None`, and `HandleEvent` reports `UnknownInstrument` and changes nothing. In the source, `ConnectToExchange` catches only `PacketTruncatedError` (src/network/exchange_feed.cpp:60). An event for an unconfigured instrument id would therefore escape the feed thread and end the process, whereas the model's `OnDatagram` returns `UnknownInstrument` and the loop goes on.
- Several members are declared but have no body anywhere in the source:
  - `Subscriber`'s constructor, `Subscribe`, `Unsubscribe`, `Enqueue` and `WaitDequeue` (src/market/server/market_plant.h:47-55);
  - `MarketPlantServer`'s constructor, `AddSubscriber`, `RemoveSubscriber` and `InitSubscriber` (src/market/server/market_plant.h:75-90);
  - `OrderBook::PushEventToSubscribers`, `InitializeSubscription` and `CancelSubscription` (src/market/market_core.h:28-32);
  - the newer `BookManager::Book` (src/market/market_core.h:69).

  Their models follow their declarations, the comments beside them and the pseudocode at src/market/market_plant.cpp:225-304. They also follow the older `OrderBook` and `book()` bodies at src/market/market_plant.cpp:29-125.
- The server's subscription handlers are pseudocode comments in src/market/market_plant.cpp:261-304, so where a request naming an unconfigured instrument would throw is not shown. `FollowAll`, `Enrol`, `AddSubscriber` and `UpdateSubscriptions` look every requested id up first and refuse the whole request with the first unknown id before changing anything.
- The simulator's `books_` map of `InstrumentState` values is a separate object (`InstrumentBooks`) whose map holds references to the two `BookState`s of each instrument. `GetBook`'s returned reference is one of those objects.
- MoldUdp64.MoldUDP64.HandlePacket: requires that seq + count and seq + 1 fit in 64 bits (`NoWrap`). The u64 wrap-around of `sequence_number + message_count` is not modelled.
- MoldUdp64.MoldUDP64.HandlePacket: message completeness (`len >= 44`) is not checked, because the newer body is not shown, although src/network/moldudp/moldudp64.h:50 promises true only for a complete message. The result is true for a 20-byte in-order packet, and `Feed.ExchangeFeed.OnDatagram` then decodes `buf[22..44]`, bytes left in the 512-byte receive buffer by earlier datagrams.
- Exchange.ExchangeSimulator.Retransmit: a request whose count field is 0xFFFF is read through `HeaderOf` as end of session with count 0, so it replays nothing. This assumes that the unseen `ParsePacketHeader` body reads the count as the older `handle_packet` does.
- MarketServer.MarketPlantServer.InitSubscriber: requires that the counter stays below 2^32 - 1. The wrap of the static `next_subscriber_id_` is not modelled.
- Exchange.BookState.NextLevelEvent: models the corrected pool check; the as-written choice is `PicksNewPriceAsWritten`/`FullBookPicksFromEmptyPool` (see Findings). It also requires `DrawFits`. For a partial reduce this means the level holds at least 2. On a level of quantity 1 the source calls `uniform_int_distribution(1, 0)`, whose behaviour is undefined.
- Exchange.ExchangeSimulator.GenerateMarketEvent: requires fewer than kMaxExchangeEvents (1000000) issued numbers. Past that, the source writes beyond `events_history_`.
- Exchange.ExchangeSimulator.Replay: the u64 sum `seq + i` is not wrapped. The loop stops at the first number not yet issued, which is below 2^64, so the sum never wraps before the stop.
- Levels.AddKeepsNoZeroLevels: stated for adds that do not overflow 32 bits. `UpdateLevel` itself models the wrap-around.

## Findings

| source | as written | input that shows it | evidently intended | confidence | as-written member | corrected member |
|---|---|---|---|---|---|---|
| src/app/exchange/exchange.cpp:102 | an add whose new-price roll succeeds calls `PickNewPrice` even when the pool is empty, and `PickNewPrice` then draws from `uniform_int_distribution(0, size() - 1)` on an empty vector and reads `avail_prices[i]` out of range | a side whose levels hold all 100 prices, and an add with the new-price roll true | take a new price only while the pool has one, otherwise add to an existing level | not executed | Exchange.FullBookPicksFromEmptyPool | Exchange.NewPriceHasPool |
