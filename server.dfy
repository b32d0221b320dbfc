/**
 * The market plant's subscription side: issuing subscriber identities,
 * registering a new subscriber with the books it asks for, adding
 * instruments for an existing subscriber, and forgetting a subscriber
 * whose stream ended.
 *
 * The gRPC handlers around these operations (StreamUpdates writing the
 * queue to the stream, UpdateSubscriptions decoding its request) are not
 * modelled; each operation is one atomic step, the locks are not modelled,
 * and the random session key is a parameter.
 */
module MarketServer {
  import opened Types
  import opened Levels
  import opened Subscribers
  import opened MarketCore

  /** The snapshot a book of the given id and depth queues over the given levels. */
  ghost function SnapshotOf(id: uint32, depth: nat, bids: LevelMap, asks: LevelMap): (u: Update)
    ensures u.SnapshotUpdate? && u.instrument == id
  {
    SnapshotUpdate(id, TopRows(bids, depth, true), TopRows(asks, depth, false))
  }

  /** Such a snapshot shows depth rows of each side, best first. */
  lemma SnapshotOfIsDepthView(id: uint32, depth: nat, bids: LevelMap, asks: LevelMap)
    ensures var u := SnapshotOf(id, depth, bids, asks);
      && |u.bids| == depth && IsDepthView(u.bids, bids, true)
      && |u.asks| == depth && IsDepthView(u.asks, asks, false)
  {
    TopRowsIsDepthView(bids, depth, true);
    TopRowsIsDepthView(asks, depth, false);
  }

  /** The snapshot each book would queue now, keyed by instrument id. */
  ghost function Views(books: map<uint32, OrderBook>): (views: map<uint32, Update>)
    reads books.Values
    ensures views.Keys == books.Keys
    ensures forall i | i in books :: views[i] == SnapshotOf(i, books[i].depth, books[i].bids, books[i].asks)
  {
    map i | i in books :: SnapshotOf(i, books[i].depth, books[i].bids, books[i].asks)
  }

  /**
   * updates are exactly one snapshot of each instrument in ids, each the
   * view recorded for that instrument, in some order.
   */
  ghost predicate HoldsSnapshots(updates: seq<Update>, ids: set<uint32>, views: map<uint32, Update>)
  {
    && (forall j | 0 <= j < |updates| ::
          && updates[j].SnapshotUpdate? && updates[j].instrument in ids && updates[j].instrument in views
          && updates[j] == views[updates[j].instrument])
    && (forall i | i in ids :: exists j | 0 <= j < |updates| :: updates[j].SnapshotUpdate? && updates[j].instrument == i)
    && (forall j, k | 0 <= j < k < |updates| && updates[j].SnapshotUpdate? && updates[k].SnapshotUpdate? ::
          updates[j].instrument != updates[k].instrument)
  }

  /** Appending the view of an instrument not covered yet covers it once more. */
  lemma {:induction false} HoldsSnapshotsAppend(updates: seq<Update>, ids: set<uint32>, views: map<uint32, Update>, i: uint32)
    requires HoldsSnapshots(updates, ids, views)
    requires i !in ids && i in views && views[i].SnapshotUpdate? && views[i].instrument == i
    ensures HoldsSnapshots(updates + [views[i]], ids + {i}, views)
  {
    var grown := updates + [views[i]];
    forall x | x in ids + {i}
      ensures exists j | 0 <= j < |grown| :: grown[j].SnapshotUpdate? && grown[j].instrument == x
    {
      if x == i {
        assert grown[|updates|].instrument == i;
      } else {
        var j :| 0 <= j < |updates| && updates[j].SnapshotUpdate? && updates[j].instrument == x;
        assert grown[j] == updates[j];
      }
    }
    forall j | 0 <= j < |grown|
      ensures && grown[j].SnapshotUpdate? && grown[j].instrument in ids + {i} && grown[j].instrument in views
              && grown[j] == views[grown[j].instrument]
    {
      if j < |updates| {
        assert grown[j] == updates[j];
      }
    }
    forall j, k | 0 <= j < k < |grown| && grown[j].SnapshotUpdate? && grown[k].SnapshotUpdate?
      ensures grown[j].instrument != grown[k].instrument
    {
      assert grown[j] == updates[j];
      if k < |updates| {
        assert grown[k] == updates[k];
      }
    }
  }

  /**
   * Registers s with the book of instrument i: the book sets s's entry and
   * queues its snapshot at the back of s's queue; its levels do not change.
   */
  method JoinBook(books: BookManager, s: Subscriber, i: uint32)
    requires books.Valid() && i in books.books
    modifies books.books[i], s`updates
    ensures books.Valid()
    ensures var book := books.books[i];
      s.updates == old(s.updates) + [SnapshotOf(i, book.depth, book.bids, book.asks)]
    ensures forall j | j in books.books ::
      && books.books[j].bids == old(books.books[j].bids) && books.books[j].asks == old(books.books[j].asks)
      && books.books[j].subscriptions ==
           if j == i then old(books.books[j].subscriptions)[s.subscriber.subscriberId := s]
           else old(books.books[j].subscriptions)
  {
    var book := books.books[i];
    assert forall j | j in books.books && j != i :: books.books[j] != book;
    book.InitializeSubscription(s);
  }

  /**
   * Registers s with the book of every instrument in ids, in no particular
   * order: each book sets s's entry and queues its snapshot behind what s
   * already holds. No level changes and no other book's registry changes.
   */
  method SubscribeBooks(books: BookManager, s: Subscriber, ids: set<uint32>)
    requires books.Valid() && ids <= books.books.Keys
    modifies books.books.Values, s`updates
    ensures books.Valid()
    ensures |old(s.updates)| <= |s.updates| && s.updates[..|old(s.updates)|] == old(s.updates)
    ensures HoldsSnapshots(s.updates[|old(s.updates)|..], ids, old(Views(books.books)))
    ensures forall i | i in books.books ::
      && books.books[i].bids == old(books.books[i].bids) && books.books[i].asks == old(books.books[i].asks)
      && books.books[i].subscriptions ==
           if i in ids then old(books.books[i].subscriptions)[s.subscriber.subscriberId := s]
           else old(books.books[i].subscriptions)
  {
    ghost var views := Views(books.books);
    ghost var prefix, queued: seq<Update> := s.updates, [];
    var done: set<uint32> := {};
    while done != ids
      invariant done <= ids
      invariant books.Valid()
      invariant s.updates == prefix + queued
      invariant HoldsSnapshots(queued, done, views)
      invariant forall i | i in books.books ::
        && books.books[i].bids == old(books.books[i].bids) && books.books[i].asks == old(books.books[i].asks)
        && books.books[i].subscriptions ==
             if i in done then old(books.books[i].subscriptions)[s.subscriber.subscriberId := s]
             else old(books.books[i].subscriptions)
      decreases ids - done
    {
      var i :| i in ids && i !in done;
      assert views[i] == SnapshotOf(i, books.books[i].depth, books.books[i].bids, books.books[i].asks);
      JoinBook(books, s, i);
      AppendOne(prefix, queued, views[i]);
      HoldsSnapshotsAppend(queued, done, views, i);
      queued := queued + [views[i]];
      done := done + {i};
    }
    assert s.updates[|prefix|..] == queued;
  }

  /**
   * Regrouping one appended update. Stated apart so that SubscribeBooks'
   * loop does not prove sequence associativity inside its own, larger
   * context.
   */
  lemma AppendOne(a: seq<Update>, b: seq<Update>, x: Update)
    ensures a + b + [x] == a + (b + [x])
  {
  }

  /** The ids of a request, as a set. */
  function Requested(instruments: seq<uint32>): (ids: set<uint32>)
    ensures forall k | 0 <= k < |instruments| :: instruments[k] in ids
    ensures forall i | i in ids :: exists k | 0 <= k < |instruments| :: instruments[k] == i
  {
    set k | 0 <= k < |instruments| :: instruments[k]
  }

  /**
   * The first requested id that has no book, if any: the id on which
   * BookManager::Book (an unordered_map::at) throws.
   */
  function FirstUnknown(configured: set<uint32>, instruments: seq<uint32>): (r: Option<uint32>)
    ensures r.None? <==> forall k | 0 <= k < |instruments| :: instruments[k] in configured
    ensures r.Some? ==> r.value !in configured
    ensures r.Some? ==>
      exists k | 0 <= k < |instruments| ::
        instruments[k] == r.value && forall j | 0 <= j < k :: instruments[j] in configured
  {
    if instruments == [] then None
    else if instruments[0] !in configured then Some(instruments[0])
    else FirstUnknown(configured, instruments[1..])
  }

  /** Looks up the book of each requested id in turn and stops at the first that has none. */
  method FindUnknown(books: BookManager, instruments: seq<uint32>) returns (unknown: Option<uint32>)
    ensures unknown == FirstUnknown(books.books.Keys, instruments)
  {
    var k := 0;
    while k < |instruments|
      invariant 0 <= k <= |instruments|
      invariant FirstUnknown(books.books.Keys, instruments) == FirstUnknown(books.books.Keys, instruments[k..])
    {
      var book := books.Book(instruments[k]);
      if book.None? {
        return Some(instruments[k]);
      }
      assert instruments[k..][1..] == instruments[k + 1..];
      k := k + 1;
    }
    return None;
  }

  /**
   * What following the requested instruments did to s and the books: s
   * follows them all; the ones it did not follow before were each
   * registered with their book and queued one snapshot behind the updates
   * already waiting; repeats changed nothing; no level changed.
   */
  twostate predicate Followed(books: BookManager, s: Subscriber, instruments: seq<uint32>)
    reads s, books.books.Values
  {
    var added := Requested(instruments) - old(s.subscribedTo);
    && s.subscribedTo == old(s.subscribedTo) + Requested(instruments)
    && |old(s.updates)| <= |s.updates| && s.updates[..|old(s.updates)|] == old(s.updates)
    && HoldsSnapshots(s.updates[|old(s.updates)|..], added, old(Views(books.books)))
    && forall i | i in books.books ::
         && books.books[i].bids == old(books.books[i].bids) && books.books[i].asks == old(books.books[i].asks)
         && books.books[i].subscriptions ==
              if i in added then old(books.books[i].subscriptions)[s.subscriber.subscriberId := s]
              else old(books.books[i].subscriptions)
  }

  /**
   * Subscribe for each requested id in turn; the result is the ids that
   * were new to s.
   */
  method SubscribeAll(s: Subscriber, instruments: seq<uint32>) returns (added: set<uint32>)
    modifies s`subscribedTo
    ensures s.subscribedTo == old(s.subscribedTo) + Requested(instruments)
    ensures added == Requested(instruments) - old(s.subscribedTo)
  {
    added := {};
    var k := 0;
    while k < |instruments|
      invariant 0 <= k <= |instruments|
      invariant s.subscribedTo == old(s.subscribedTo) + Requested(instruments[..k])
      invariant added == s.subscribedTo - old(s.subscribedTo)
    {
      assert Requested(instruments[..k + 1]) == Requested(instruments[..k]) + {instruments[k]};
      var isNew := s.Subscribe(instruments[k]);
      if isNew {
        added := added + {instruments[k]};
      }
      k := k + 1;
    }
    assert instruments[..k] == instruments;
  }

  /**
   * Follows the requested instruments: an id with no book is reported and
   * nothing changes; otherwise subscribe for every requested id, then
   * registration with the book of every id that was new.
   */
  method FollowAll(books: BookManager, s: Subscriber, instruments: seq<uint32>) returns (unknown: Option<uint32>)
    requires books.Valid()
    modifies s`subscribedTo, s`updates, books.books.Values
    ensures books.Valid()
    ensures unknown == FirstUnknown(books.books.Keys, instruments)
    ensures unknown.Some? ==> unchanged(s) && unchanged(books.books.Values)
    ensures unknown.None? ==> Followed(books, s, instruments)
  {
    unknown := FindUnknown(books, instruments);
    if unknown.Some? {
      return;
    }
    var added := SubscribeAll(s, instruments);
    SubscribeBooks(books, s, added);
  }

  /**
   * A new subscriber with the given identity, following the requested
   * instruments: it is registered with each of their books and finds one
   * snapshot of each of them in its queue. Levels do not change. A
   * requested id with no book is reported instead, and no book changes.
   */
  method Enrol(books: BookManager, ident: Identifier, instruments: seq<uint32>) returns (r: Result<Subscriber, uint32>)
    requires books.Valid()
    modifies books.books.Values
    ensures books.Valid()
    ensures r.Failure? ==> Some(r.error) == FirstUnknown(books.books.Keys, instruments) && unchanged(books.books.Values)
    ensures r.Success? ==>
      && FirstUnknown(books.books.Keys, instruments) == None
      && fresh(r.value) && r.value.subscriber == ident && r.value.alive
      && r.value.subscribedTo == Requested(instruments)
      && Admitted(books, r.value)
  {
    var unknown := FindUnknown(books, instruments);
    if unknown.Some? {
      return Failure(unknown.value);
    }
    var s := new Subscriber(ident, instruments);
    assert unchanged(books.books.Values);
    assert s.subscribedTo == Requested(instruments);
    SubscribeBooks(books, s, s.subscribedTo);
    r := Success(s);
  }

  /**
   * What admitting the new subscriber s did: its queue holds one snapshot
   * of each instrument it follows, each book of those instruments holds s
   * under its id, and nothing else of any book changed.
   */
  twostate predicate Admitted(books: BookManager, new s: Subscriber)
    reads s, books.books.Values
  {
    && HoldsSnapshots(s.updates, s.subscribedTo, old(Views(books.books)))
    && forall i | i in books.books ::
         && books.books[i].bids == old(books.books[i].bids) && books.books[i].asks == old(books.books[i].asks)
         && books.books[i].subscriptions ==
              if i in s.subscribedTo then old(books.books[i].subscriptions)[s.subscriber.subscriberId := s]
              else old(books.books[i].subscriptions)
  }

  /** The answer to a control-plane request. */
  datatype ControlOutcome = Accepted | Unauthorized | UnknownInstrument(id: uint32)

  class MarketPlantServer {
    const books: BookManager
    /** The id the next subscriber gets; ids start at 1. */
    var nextSubscriberId: uint32
    /** Id -> non-owning reference to the subscriber of an open stream. */
    var subscribers: map<uint32, Subscriber>

    /** Every registered id was issued already, is non-zero, and is its subscriber's own id. */
    ghost predicate Valid()
      reads this
    {
      && 0 < nextSubscriberId
      && forall sid | sid in subscribers ::
           0 < sid < nextSubscriberId && subscribers[sid].subscriber.subscriberId == sid
    }

    /** The subscriber registered under sid, if any. */
    ghost function HeldBy(sid: uint32): (held: set<Subscriber>)
      reads this
      ensures sid in subscribers ==> held == {subscribers[sid]}
      ensures sid !in subscribers ==> held == {}
    {
      if sid in subscribers then {subscribers[sid]} else {}
    }

    constructor (books: BookManager)
      ensures this.books == books
      ensures nextSubscriberId == 1 && subscribers == map[]
      ensures Valid()
    {
      this.books := books;
      nextSubscriberId := 1;
      subscribers := map[];
    }

    /**
     * Issues the next subscriber id with the given session key and
     * advances the counter; the id is non-zero and no registered
     * subscriber holds it.
     */
    method InitSubscriber(sessionKey: string) returns (ident: Identifier)
      requires Valid() && nextSubscriberId + 1 < U32_LIMIT
      modifies this`nextSubscriberId
      ensures Valid()
      ensures ident == Identifier(old(nextSubscriberId), sessionKey)
      ensures nextSubscriberId == old(nextSubscriberId) + 1
      ensures 0 < ident.subscriberId && ident.subscriberId !in subscribers
    {
      ident := Identifier(nextSubscriberId, sessionKey);
      nextSubscriberId := nextSubscriberId + 1;
    }

    /**
     * A new stream: a fresh subscriber with a new id follows the requested
     * instruments, finds one snapshot of each of them in its queue, is
     * registered with each of their books, and is registered under its
     * id. Levels do not change. A request naming an instrument with no
     * book fails with that id, and then no id is issued and nothing changes.
     */
    method AddSubscriber(instruments: seq<uint32>, sessionKey: string) returns (r: Result<Subscriber, uint32>)
      requires Valid() && books.Valid() && nextSubscriberId + 1 < U32_LIMIT
      modifies this`nextSubscriberId, this`subscribers, books.books.Values
      ensures Valid() && books.Valid()
      ensures r.Failure? ==>
        && Some(r.error) == FirstUnknown(books.books.Keys, instruments)
        && nextSubscriberId == old(nextSubscriberId) && subscribers == old(subscribers)
        && unchanged(books.books.Values)
      ensures r.Success? ==>
        var s := r.value;
        && FirstUnknown(books.books.Keys, instruments) == None
        && fresh(s) && s.subscriber == Identifier(old(nextSubscriberId), sessionKey) && s.alive
        && nextSubscriberId == old(nextSubscriberId) + 1
        && subscribers == old(subscribers)[s.subscriber.subscriberId := s]
        && s.subscribedTo == Requested(instruments)
        && Admitted(books, s)
    {
      r := Enrol(books, Identifier(nextSubscriberId, sessionKey), instruments);
      if r.Failure? {
        return;
      }
      var ident := InitSubscriber(sessionKey);
      subscribers := subscribers[ident.subscriberId := r.value];
    }

    /** Forgets only the subscriber registered under sid. */
    method RemoveSubscriber(sid: uint32)
      requires Valid()
      modifies this`subscribers
      ensures Valid()
      ensures subscribers == old(subscribers) - {sid}
    {
      subscribers := subscribers - {sid};
    }

    /**
     * The control plane: a request naming a subscriber id and session key
     * that do not match a subscriber whose stream is open is rejected; one
     * naming an instrument with no book fails with that id; in both cases
     * nothing changes. Otherwise the subscriber follows the requested
     * instruments as FollowAll says.
     */
    method UpdateSubscriptions(sid: uint32, sessionKey: string, instruments: seq<uint32>) returns (outcome: ControlOutcome)
      requires Valid() && books.Valid()
      modifies HeldBy(sid)`subscribedTo, HeldBy(sid)`updates, books.books.Values
      ensures books.Valid()
      ensures outcome.Unauthorized? <==>
        !(sid in subscribers && subscribers[sid].alive && subscribers[sid].subscriber.sessionKey == sessionKey)
      ensures outcome.UnknownInstrument? ==> Some(outcome.id) == FirstUnknown(books.books.Keys, instruments)
      ensures !outcome.Accepted? ==> unchanged(books.books.Values) && unchanged(HeldBy(sid))
      ensures outcome.Accepted? ==>
        FirstUnknown(books.books.Keys, instruments) == None && Followed(books, subscribers[sid], instruments)
    {
      if sid !in subscribers {
        return Unauthorized;
      }
      var s := subscribers[sid];
      if !s.alive || s.subscriber.sessionKey != sessionKey {
        return Unauthorized;
      }
      var unknown := FollowAll(books, s, instruments);
      if unknown.Some? {
        return UnknownInstrument(unknown.value);
      }
      outcome := Accepted;
    }
  }
}
