/** asyncio.Queue as far as the adapter uses it: appended without waiting, bounded if maxsize is positive. */
module AsyncQueue {

  /** The items after put_nowait, which leaves a full queue as it is. */
  function Offer<T>(maxsize: nat, items: seq<T>, x: T): (r: seq<T>)
    ensures r == items || r == items + [x]
    ensures 0 < maxsize && |items| <= maxsize ==> |r| <= maxsize
  {
    if 0 < maxsize <= |items| then items else items + [x]
  }

  class Queue<T(0)> {
    const maxsize: nat
    var items: seq<T>

    constructor (maxsize: nat)
      ensures this.maxsize == maxsize && items == []
    {
      this.maxsize := maxsize;
      items := [];
    }

    /** Answers whether the queue was full, the case in which Python raises QueueFull. */
    method PutNowait(x: T) returns (full: bool)
      modifies this
      ensures full == (0 < maxsize <= |old(items)|)
      ensures items == Offer(maxsize, old(items), x)
    {
      full := 0 < maxsize <= |items|;
      if !full {
        items := items + [x];
      }
    }

    /** get() on a queue that has something. */
    method Get() returns (x: T)
      requires items != []
      modifies this`items
      ensures old(items) == [x] + items
    {
      x := items[0];
      items := items[1..];
    }
  }
}
