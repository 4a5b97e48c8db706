/**
 * The two channel kinds connecting the handle to the synchronisation
 * task, as sequential objects: tokio's bounded `mpsc` channel (a
 * capacity-limited FIFO whose `try_send` fails rather than waits) and
 * the single-value channel (a slot the task overwrites and the handle
 * reads).
 */
module Channels {
  import opened Common

  /** Why `try_send` refused a value. */
  datatype TrySendError = Full | Closed

  /**
   * A bounded FIFO queue. `closed` is set once the receiving side is
   * gone; the values still buffered are dropped with it.
   */
  class BoundedQueue<T> {
    const capacity: nat
    var items: seq<T>
    var closed: bool

    ghost predicate Valid()
      reads this
    {
      |items| <= capacity && (closed ==> items == [])
    }

    /** `channel(capacity)`: tokio refuses a capacity of zero. */
    constructor (capacity: nat)
      requires capacity > 0
      ensures Valid()
      ensures this.capacity == capacity && items == [] && !closed
    {
      this.capacity := capacity;
      items := [];
      closed := false;
    }

    /** `try_send`: enqueue when open and not full; otherwise leave the queue as it was. */
    method TrySend(x: T) returns (r: Option<TrySendError>)
      requires Valid()
      modifies this
      ensures Valid() && closed == old(closed)
      ensures r == if old(closed) then Some(Closed) else if old(|items|) == capacity then Some(Full) else None
      ensures items == if r.None? then old(items) + [x] else old(items)
    {
      if closed {
        r := Some(Closed);
      } else if |items| == capacity {
        r := Some(Full);
      } else {
        items := items + [x];
        r := None;
      }
    }

    /** `try_recv`: the oldest value, if any. */
    method TryRecv() returns (r: Option<T>)
      requires Valid()
      modifies this
      ensures Valid() && closed == old(closed)
      ensures r.None? <==> old(items) == []
      ensures r.Some? ==> r.value == old(items)[0] && items == old(items)[1..]
      ensures r.None? ==> items == old(items)
    {
      if |items| == 0 {
        r := None;
      } else {
        r := Some(items[0]);
        items := items[1..];
      }
    }

    /** Dropping the receiver: later sends fail and buffered values are gone. */
    method Close()
      requires Valid()
      modifies this
      ensures Valid() && closed && items == []
    {
      closed := true;
      items := [];
    }
  }

  /** The single-value channel: always holds a value, starting with the one it was created with. */
  class LatestSlot<T> {
    var value: T

    /** `channel_starting_with(initial)`. */
    constructor (initial: T)
      ensures value == initial
    {
      value := initial;
    }

    /** `Updater::update`: the new value replaces the old one. */
    method Update(x: T)
      modifies this
      ensures value == x
    {
      value := x;
    }

    /** `Receiver::latest`: the value most recently stored. */
    function Latest(): T
      reads this
    {
      value
    }
  }
}
