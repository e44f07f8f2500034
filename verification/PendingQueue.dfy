/**
 * cmd/gt-pipeline/pending_decode.go: the byte-bounded FIFO that holds packets the
 * decoder cannot take yet. Over the limit it drops the oldest packets.
 */
module PendingQueue {
  import opened Seqs
  import opened Packets

  const PENDING_QUEUE_MAX_BYTES := 64 * 1024 * 1024

  function RawBytes(items: seq<Packet>): nat {
    if items == [] then 0 else |items[0].raw| + RawBytes(items[1..])
  }

  /** What is left of `items` after dropping from the head while over the limit. */
  function Shed(items: seq<Packet>, maxBytes: int): (kept: seq<Packet>)
    ensures |kept| <= |items|
    ensures items != [] ==> kept != []
  {
    if RawBytes(items) > maxBytes && |items| > 1 then Shed(items[1..], maxBytes) else items
  }

  /** The newest `n` items. */
  function Newest(items: seq<Packet>, n: nat): seq<Packet>
    requires n <= |items|
  {
    items[|items| - n..]
  }

  lemma {:induction false} RawBytesAppend(items: seq<Packet>, x: Packet)
    ensures RawBytes(items + [x]) == RawBytes(items) + |x.raw|
  {
    if items == [] {
      assert (items + [x])[1..] == [];
    } else {
      assert (items + [x])[1..] == items[1..] + [x];
      RawBytesAppend(items[1..], x);
    }
  }

  /**
   * Shedding keeps the longest suffix within the limit: the result is a suffix, it fits
   * (or is the newest packet alone), and every longer suffix is over the limit.
   */
  lemma {:induction false} ShedIsLongestFit(items: seq<Packet>, maxBytes: int)
    requires items != []
    ensures var kept := Shed(items, maxBytes);
            && kept == Newest(items, |kept|)
            && (RawBytes(kept) <= maxBytes || kept == [Last(items)])
            && forall n :: |kept| < n <= |items| ==> RawBytes(Newest(items, n)) > maxBytes
  {
    if RawBytes(items) > maxBytes && |items| > 1 {
      ShedIsLongestFit(items[1..], maxBytes);
      var kept := Shed(items, maxBytes);
      forall n | |kept| < n <= |items|
        ensures RawBytes(Newest(items, n)) > maxBytes
      {
        if n < |items| {
          assert Newest(items[1..], n) == Newest(items, n);
        } else {
          assert Newest(items, n) == items;
        }
      }
      assert Newest(items[1..], |kept|) == Newest(items, |kept|);
    } else {
      assert Newest(items, |items|) == items;
    }
  }

  /** The queue as a value. */
  datatype Queue = Queue(items: seq<Packet>, maxBytes: int, dropped: nat)

  function Push(q: Queue, pkt: Packet): (r: Queue)
    ensures |r.items| + r.dropped == |q.items| + 1 + q.dropped
  {
    var kept := Shed(q.items + [pkt], q.maxBytes);
    q.(items := kept, dropped := q.dropped + (|q.items| + 1 - |kept|))
  }

  function PopHead(q: Queue): Queue
    requires q.items != []
  {
    q.(items := q.items[1..])
  }

  class PendingQueue {
    var items: seq<Packet>
    var bytes: int
    const maxBytes: int
    var dropped: nat

    ghost predicate Valid()
      reads this
    {
      bytes == RawBytes(items) && maxBytes > 0
    }

    function Value(): Queue
      reads this
    {
      Queue(items, maxBytes, dropped)
    }

    constructor (limit: int)
      ensures Valid()
      ensures Value() == Queue([], if limit <= 0 then PENDING_QUEUE_MAX_BYTES else limit, 0)
    {
      items, bytes, dropped := [], 0, 0;
      maxBytes := if limit <= 0 then PENDING_QUEUE_MAX_BYTES else limit;
    }

    /** The packet to send next: the oldest one waiting, or `fallback` when none waits. */
    method HeadOr(fallback: Packet) returns (next: Packet)
      ensures next == (items + [fallback])[0]
    {
      if |items| == 0 {
        return fallback;
      }
      return items[0];
    }

    method Pop()
      requires Valid() && items != []
      modifies this`items, this`bytes
      ensures Valid() && Value() == PopHead(old(Value()))
    {
      bytes := bytes - |items[0].raw|;
      items := items[1..];
    }

    /** Appends, then drops the oldest packets while over the limit, counting each. */
    method Append(pkt: Packet)
      requires Valid()
      modifies this
      ensures Valid() && Value() == Push(old(Value()), pkt)
    {
      RawBytesAppend(items, pkt);
      items := items + [pkt];
      bytes := bytes + |pkt.raw|;
      while bytes > maxBytes && |items| > 1
        invariant Valid() && items != []
        invariant Shed(items, maxBytes) == Shed(old(items) + [pkt], maxBytes)
        invariant dropped - old(dropped) == |old(items)| + 1 - |items|
        decreases |items|
      {
        Pop();
        dropped := dropped + 1;
      }
    }
  }
}
