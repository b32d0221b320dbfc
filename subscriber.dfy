/**
 * A market-data subscriber: its identifier, the FIFO queue of updates
 * waiting to be streamed to it, and the set of instruments it follows.
 *
 * Registries elsewhere hold non-owning references to a subscriber; the
 * field alive says whether the stream that owns it is still open, so that
 * locking a weak reference succeeds. Blocking in WaitDequeue is not
 * modelled: an empty queue yields no update.
 */
module Subscribers {
  import opened Types
  import opened Event
  import opened Levels

  /** A subscriber id and the session key issued with it. */
  datatype Identifier = Identifier(subscriberId: uint32, sessionKey: string)

  /** One entry of a stream: a depth snapshot of an instrument, or one market event. */
  datatype Update =
    | SnapshotUpdate(instrument: uint32, bids: seq<Row>, asks: seq<Row>)
    | EventUpdate(event: MarketEvent)

  class Subscriber {
    const subscriber: Identifier
    var updates: seq<Update>
    var subscribedTo: set<uint32>
    var alive: bool

    /** A live subscriber following the given instruments, with nothing queued yet. */
    constructor (subscriber: Identifier, instruments: seq<uint32>)
      ensures this.subscriber == subscriber
      ensures subscribedTo == set i | i in instruments
      ensures updates == [] && alive
    {
      this.subscriber := subscriber;
      updates := [];
      subscribedTo := set i | i in instruments;
      alive := true;
    }

    /** Follows id; reports whether it was newly added (a repeat changes nothing). */
    method Subscribe(id: uint32) returns (added: bool)
      modifies this`subscribedTo
      ensures added <==> id !in old(subscribedTo)
      ensures subscribedTo == old(subscribedTo) + {id}
    {
      added := id !in subscribedTo;
      subscribedTo := subscribedTo + {id};
    }

    /** Stops following id. */
    method Unsubscribe(id: uint32)
      modifies this`subscribedTo
      ensures subscribedTo == old(subscribedTo) - {id}
    {
      subscribedTo := subscribedTo - {id};
    }

    /**
     * Appends an update at the back of the queue; the result says whether
     * the waiting reader must be signalled, which is when the queue was empty.
     */
    method Enqueue(next: Update) returns (signal: bool)
      modifies this`updates
      ensures updates == old(updates) + [next]
      ensures signal <==> old(updates) == []
    {
      signal := updates == [];
      updates := updates + [next];
    }

    /** Takes the update at the front of the queue, or none when the queue is empty. */
    method WaitDequeue() returns (next: Option<Update>)
      modifies this`updates
      ensures old(updates) == [] ==> next == None && updates == []
      ensures old(updates) != [] ==> next == Some(old(updates)[0]) && updates == old(updates)[1..]
      ensures old(updates) == (if next.Some? then [next.value] else []) + updates
    {
      if updates == [] {
        return None;
      }
      next := Some(updates[0]);
      updates := updates[1..];
    }

    /** The stream owning this subscriber ended: weak references to it no longer lock. */
    method Expire()
      modifies this`alive
      ensures !alive
    {
      alive := false;
    }
  }
}
