/** The receivers' jitter buffer: a `collections.deque(maxlen=n)` of
    blocks, appended to by the network side and popped from the left by
    the playback callback. */
module Jitter {
  import opened Common

  class Deque<T> {
    const maxlen: nat
    var items: seq<T>

    ghost predicate Valid()
      reads this
    {
      |items| <= maxlen
    }

    constructor (maxlen: nat)
      ensures Valid() && this.maxlen == maxlen && items == []
    {
      this.maxlen := maxlen;
      items := [];
    }

    /** `append`: a full deque drops its oldest block. */
    method Append(x: T)
      requires Valid()
      modifies this
      ensures Valid()
      ensures items == Common.Append(old(items), x, maxlen)
    {
      items := Common.Append(items, x, maxlen);
    }

    /** `popleft`, which the callers only make on a non-empty deque. */
    method PopLeft() returns (x: T)
      requires items != []
      modifies this
      ensures x == old(items)[0] && items == old(items)[1..]
    {
      x := items[0];
      items := items[1..];
    }

    method Clear()
      modifies this
      ensures items == []
    {
      items := [];
    }
  }
}
