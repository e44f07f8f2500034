/** The values that travel through the capture pipeline. */
module Packets {
  import opened Seqs

  type byte = b: int | 0 <= b < 256

  /** A captured frame (pkg/event, Packet): a stable id and its raw bytes. */
  datatype Packet = Packet(id: string, raw: seq<byte>)

  /** A decoded event as far as buffering and ordering are concerned: its identity. */
  datatype Event = Event(id: string)

  /** A decode result; entries may be nil, and consumers skip those. */
  type Batch = seq<Option<Event>>

  /** The events of a batch, nil entries skipped. */
  function Present(batch: Batch): (events: seq<Event>)
  {
    if batch == [] then
      []
    else
      Present(Front(batch)) + (if Last(batch).Some? then [Last(batch).value] else [])
  }

  /** Present keeps the events of a batch in their order: it maps pieces of a batch to pieces of the result. */
  lemma {:induction false} PresentKeepsOrder(a: Batch, b: Batch)
    ensures Present(a + b) == Present(a) + Present(b)
    ensures forall e :: Present([Some(e)]) == [e]
    ensures Present([None]) == []
    decreases |b|
  {
    if b == [] {
      assert a + b == a;
    } else {
      PresentKeepsOrder(a, Front(b));
      assert Front(a + b) == a + Front(b) && Last(a + b) == Last(b);
    }
    assert forall x: Option<Event> :: Front([x]) == [];
  }
}
