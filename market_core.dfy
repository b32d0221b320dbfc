/**
 * The market plant's order books: one book per configured instrument, each
 * holding its bid and ask levels and a registry of the subscribers that
 * stream it.
 *
 * Levels change only through PushEventToSubscribers (the feed side) and
 * registrations only through InitializeSubscription and CancelSubscription
 * (the server side). Every public operation is one atomic step; the mutex
 * is not modelled.
 */
module MarketCore {
  import opened Types
  import opened Event
  import opened Levels
  import opened Subscribers

  class OrderBook {
    const id: uint32
    const depth: nat
    /** Bid levels, walked by descending price. */
    var bids: LevelMap
    /** Ask levels, walked by ascending price. */
    var asks: LevelMap
    /** Non-owning references, keyed by subscriber id. */
    var subscriptions: map<uint32, Subscriber>

    /** Each registry entry is the subscriber with that id. */
    ghost predicate Valid()
      reads this
    {
      forall sid | sid in subscriptions :: subscriptions[sid].subscriber.subscriberId == sid
    }

    constructor (id: uint32, depth: nat)
      ensures this.id == id && this.depth == depth
      ensures bids == map[] && asks == map[] && subscriptions == map[]
      ensures Valid()
    {
      this.id := id;
      this.depth := depth;
      bids := map[];
      asks := map[];
      subscriptions := map[];
    }

    /** Adds quantity at price on the side: bid for side 0, ask for anything else. */
    method AddOrder(side: byte, price: uint32, quantity: uint32)
      modifies this
      ensures side == kBid ==> bids == UpdateLevel(old(bids), price, quantity) && asks == old(asks)
      ensures side != kBid ==> asks == UpdateLevel(old(asks), price, quantity) && bids == old(bids)
      ensures subscriptions == old(subscriptions)
    {
      if side == kBid {
        bids := UpdateLevel(bids, price, quantity);
      } else {
        asks := UpdateLevel(asks, price, quantity);
      }
    }

    /** Reduces the level at price on the side; a price with no level is left alone. */
    method RemoveOrder(side: byte, price: uint32, quantity: uint32)
      modifies this
      ensures side == kBid ==> bids == ReduceLevel(old(bids), price, quantity) && asks == old(asks)
      ensures side != kBid ==> asks == ReduceLevel(old(asks), price, quantity) && bids == old(bids)
      ensures subscriptions == old(subscriptions)
    {
      if side == kBid {
        if price !in bids {
          return;
        }
        bids := ModifyLevel(bids, price, quantity);
      } else {
        if price !in asks {
          return;
        }
        asks := ModifyLevel(asks, price, quantity);
      }
    }

    /**
     * The depth-limited snapshot: depth rows per side, the best levels
     * first (highest bid, lowest ask), padded once a side runs out. Both
     * sides are walked in one loop, one row each per step.
     */
    method Snapshot() returns (bidRows: seq<Row>, askRows: seq<Row>)
      ensures bidRows == TopRows(bids, depth, true) && askRows == TopRows(asks, depth, false)
      ensures |bidRows| == depth && IsDepthView(bidRows, bids, true)
      ensures |askRows| == depth && IsDepthView(askRows, asks, false)
    {
      bidRows, askRows := [], [];
      var bidRest, askRest := bids, asks;
      var i := 0;
      while i < depth
        invariant 0 <= i <= depth
        invariant bidRows + TopRows(bidRest, depth - i, true) == TopRows(bids, depth, true)
        invariant askRows + TopRows(askRest, depth - i, false) == TopRows(asks, depth, false)
      {
        bidRows, bidRest := NextRow(bidRows, bidRest, true, depth - i);
        askRows, askRest := NextRow(askRows, askRest, false, depth - i);
        i := i + 1;
      }
      TopRowsIsDepthView(bids, depth, true);
      TopRowsIsDepthView(asks, depth, false);
    }

    /**
     * Applies an event to the levels (AddLevel adds, any other kind
     * reduces) and fans it out: registry entries whose subscriber is gone
     * are dropped and every live subscriber gets the event at the back of
     * its queue; nothing else of a subscriber changes.
     */
    method PushEventToSubscribers(e: MarketEvent)
      requires Valid()
      modifies this, subscriptions.Values`updates
      ensures Valid()
      ensures e.side == kBid ==> bids == ApplyEvent(old(bids), e.event, e.price, e.quantity) && asks == old(asks)
      ensures e.side != kBid ==> asks == ApplyEvent(old(asks), e.event, e.price, e.quantity) && bids == old(bids)
      ensures subscriptions == old(Kept(subscriptions))
      ensures forall sid | sid in old(subscriptions) ::
        var s := old(subscriptions[sid]);
        s.updates == old(s.updates) + (if old(s.alive) then [EventUpdate(e)] else [])
    {
      if e.event == kAddLevel {
        AddOrder(e.side, e.price, e.quantity);
      } else {
        RemoveOrder(e.side, e.price, e.quantity);
      }
      FanOut(e);
    }

    /**
     * Visits every registry entry once, in no particular order: a dead
     * subscriber's entry is erased, a live one gets the event enqueued.
     */
    method FanOut(e: MarketEvent)
      requires Valid()
      modifies this`subscriptions, subscriptions.Values`updates
      ensures Valid()
      ensures subscriptions == old(Kept(subscriptions))
      ensures forall sid | sid in old(subscriptions) ::
        var s := old(subscriptions[sid]);
        s.updates == old(s.updates) + (if old(s.alive) then [EventUpdate(e)] else [])
    {
      ghost var registry := subscriptions;
      var pending := subscriptions.Keys;
      while pending != {}
        invariant pending <= registry.Keys && subscriptions.Keys <= registry.Keys
        invariant forall sid | sid in registry :: sid in subscriptions <==> sid in pending || old(registry[sid].alive)
        invariant forall sid | sid in subscriptions :: subscriptions[sid] == registry[sid]
        invariant forall sid | sid in registry ::
          var s := registry[sid];
          s.updates == old(s.updates) + (if sid !in pending && old(s.alive) then [EventUpdate(e)] else [])
        decreases pending
      {
        var sid :| sid in pending;
        var subscriber := subscriptions[sid];
        if subscriber.alive {
          var _ := subscriber.Enqueue(EventUpdate(e));
        } else {
          subscriptions := subscriptions - {sid};
        }
        pending := pending - {sid};
      }
    }

    /**
     * Registers a subscriber: its queue receives this book's current
     * snapshot, and its entry (keyed by its id, so at most one per
     * subscriber) is set. Levels do not change.
     */
    method InitializeSubscription(subscriber: Subscriber)
      requires Valid()
      modifies this, subscriber`updates
      ensures Valid()
      ensures subscriptions == old(subscriptions)[subscriber.subscriber.subscriberId := subscriber]
      ensures bids == old(bids) && asks == old(asks)
      ensures |subscriber.updates| == |old(subscriber.updates)| + 1
      ensures subscriber.updates[..|old(subscriber.updates)|] == old(subscriber.updates)
      ensures var u := subscriber.updates[|old(subscriber.updates)|];
        && u.SnapshotUpdate? && u.instrument == id
        && u.bids == TopRows(bids, depth, true) && IsDepthView(u.bids, bids, true)
        && u.asks == TopRows(asks, depth, false) && IsDepthView(u.asks, asks, false)
    {
      var bidRows, askRows := Snapshot();
      var _ := subscriber.Enqueue(SnapshotUpdate(id, bidRows, askRows));
      subscriptions := subscriptions[subscriber.subscriber.subscriberId := subscriber];
    }

    /** Removes only that subscriber's entry; levels do not change. */
    method CancelSubscription(sid: uint32)
      requires Valid()
      modifies this
      ensures Valid()
      ensures subscriptions == old(subscriptions) - {sid}
      ensures bids == old(bids) && asks == old(asks)
    {
      subscriptions := subscriptions - {sid};
    }
  }

  /**
   * One step of a side's iterator over the levels it has not shown yet:
   * appends the best of them, or padding once there are none, so that the
   * rows so far followed by the m - 1 rows still to come from what remains
   * are the rows so far followed by the m rows that were to come.
   */
  method NextRow(rows: seq<Row>, rest: LevelMap, descending: bool, ghost m: nat)
    returns (rows': seq<Row>, rest': LevelMap)
    requires m > 0
    ensures rows' + TopRows(rest', m - 1, descending) == rows + TopRows(rest, m, descending)
  {
    if rest == map[] {
      rows', rest' := rows + [Padding], rest;
    } else {
      ghost var _ := BestOf(rest.Keys, descending);
      var p :| p in rest && forall q | q in rest && q != p :: Better(descending, p, q);
      BestUnique(rest.Keys, descending, p, Best(rest.Keys, descending));
      rows', rest' := rows + [Level(p, rest[p])], rest - {p};
    }
  }

  /** One configured instrument: its id and the depth its snapshots show. */
  datatype Instrument = Instrument(id: uint32, depth: nat)

  /** The instrument ids of a configuration. */
  function ConfiguredIds(instruments: seq<Instrument>): (ids: set<uint32>)
    ensures forall k | 0 <= k < |instruments| :: instruments[k].id in ids
    ensures forall i | i in ids :: exists k | 0 <= k < |instruments| :: instruments[k].id == i
  {
    set k | 0 <= k < |instruments| :: instruments[k].id
  }

  /** Entry k is the first to configure its instrument id. */
  ghost predicate FirstEntry(instruments: seq<Instrument>, k: nat)
    requires k < |instruments|
  {
    forall j | 0 <= j < k :: instruments[j].id != instruments[k].id
  }

  /** The entries of a registry whose subscriber is still alive. */
  ghost function Kept(registry: map<uint32, Subscriber>): (kept: map<uint32, Subscriber>)
    reads registry.Values
    ensures kept.Keys <= registry.Keys
    ensures forall sid | sid in registry :: sid in kept <==> registry[sid].alive
    ensures forall sid | sid in kept :: kept[sid] == registry[sid]
  {
    map sid | sid in registry && registry[sid].alive :: registry[sid]
  }

  /** A book's levels and registry, as values. */
  datatype BookView = BookView(bids: LevelMap, asks: LevelMap, subscriptions: map<uint32, Subscriber>)

  /** A subscriber's liveness and queue, as values. */
  datatype QueueView = QueueView(alive: bool, updates: seq<Update>)

  /** The liveness and queue of each subscriber in queues, as values. */
  ghost function QueueViews(queues: set<Subscriber>): (v: map<Subscriber, QueueView>)
    reads queues
    ensures v.Keys == queues
  {
    map s | s in queues :: QueueView(s.alive, s.updates)
  }

  class BookManager {
    const books: map<uint32, OrderBook>

    /** Each book is filed under its own instrument id and is itself valid. */
    ghost predicate Valid()
      reads books.Values
    {
      forall i | i in books :: books[i].id == i && books[i].Valid()
    }

    /** One empty book per configured instrument id; the first entry for an id wins. */
    constructor (instruments: seq<Instrument>)
      ensures books.Keys == ConfiguredIds(instruments)
      ensures forall k | 0 <= k < |instruments| && FirstEntry(instruments, k) ::
        books[instruments[k].id].depth == instruments[k].depth
      ensures forall i | i in books ::
        && books[i].id == i && fresh(books[i])
        && books[i].bids == map[] && books[i].asks == map[] && books[i].subscriptions == map[]
      ensures Valid()
    {
      var built: map<uint32, OrderBook> := map[];
      var k := 0;
      while k < |instruments|
        invariant 0 <= k <= |instruments|
        invariant built.Keys == set j | 0 <= j < k :: instruments[j].id
        invariant forall j | 0 <= j < k && FirstEntry(instruments, j) :: built[instruments[j].id].depth == instruments[j].depth
        invariant forall i | i in built ::
          && built[i].id == i && fresh(built[i])
          && built[i].bids == map[] && built[i].asks == map[] && built[i].subscriptions == map[]
      {
        var instrument := instruments[k];
        ghost var before := built;
        if instrument.id !in built {
          var book := new OrderBook(instrument.id, instrument.depth);
          built := built[instrument.id := book];
        } else {
          assert !FirstEntry(instruments, k);
        }
        assert built.Keys == before.Keys + {instrument.id};
        k := k + 1;
      }
      books := built;
    }

    /** The book of a configured instrument; an unknown id has none (.at throws). */
    method Book(id: uint32) returns (r: Option<OrderBook>)
      ensures id in books ==> r == Some(books[id])
      ensures id !in books ==> r == None
    {
      if id in books {
        return Some(books[id]);
      }
      return None;
    }

    /** A book's two sides and registry, as values. */
    ghost function BookViews(): (v: map<uint32, BookView>)
      reads books.Values
      ensures v.Keys == books.Keys
    {
      map i | i in books :: BookView(books[i].bids, books[i].asks, books[i].subscriptions)
    }

    /**
     * What routing e did, measured against the books as they were (before)
     * and the subscribers in queues as they were (queued): the book of e's
     * instrument applied e to the side it names, leaving the other side,
     * dropped its dead registrations and appended e to the queue of each
     * live subscriber registered with it; no other book and no other
     * subscriber's queue changed.
     */
    ghost predicate RoutedFrom(e: MarketEvent, queues: set<Subscriber>,
                               before: map<uint32, BookView>, queued: map<Subscriber, QueueView>)
      reads books.Values, queues
    {
      && e.instrumentId in books && before.Keys == books.Keys && queued.Keys == queues
      && var book := books[e.instrumentId];
      && var b0 := before[e.instrumentId];
      && (e.side == kBid ==> book.bids == ApplyEvent(b0.bids, e.event, e.price, e.quantity) && book.asks == b0.asks)
      && (e.side != kBid ==> book.asks == ApplyEvent(b0.asks, e.event, e.price, e.quantity) && book.bids == b0.bids)
      && book.subscriptions.Keys <= b0.subscriptions.Keys
      && (forall sid | sid in b0.subscriptions ::
            && b0.subscriptions[sid] in queues
            && (sid in book.subscriptions <==> queued[b0.subscriptions[sid]].alive)
            && (sid in book.subscriptions ==> book.subscriptions[sid] == b0.subscriptions[sid]))
      && (forall sid | sid in b0.subscriptions && b0.subscriptions[sid] in queues ::
            var s := b0.subscriptions[sid];
            s.updates == queued[s].updates + (if queued[s].alive then [EventUpdate(e)] else []))
      && (forall i | i in books && i != e.instrumentId ::
            BookView(books[i].bids, books[i].asks, books[i].subscriptions) == before[i])
      && (forall s | s in queues && s !in b0.subscriptions.Values :: s.updates == queued[s].updates)
    }
  }
}
