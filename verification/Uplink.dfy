/** cmd/gt-agent/ingest.go, ingestClient: the loop of one stream over the spool. */
module Uplink {
  import opened Seqs
  import opened Packets
  import opened Spool
  import opened Ingest

  class Client {
    const spool: Queue
    const batchSize: int
    var dropped: nat
    ghost var traffic: Traffic
    ghost var arrived: seq<Packet>
    ghost var doubled: nat

    ghost predicate Valid()
      reads this, spool
    {
      spool.Valid()
    }

    /** The client with `pending` taken out of the spool and not yet sent. */
    ghost function Value(pending: seq<Record>, open: bool): Link
      reads this, spool
    {
      Link(spool.Value(), pending, true, open, traffic, Tally(arrived, dropped, doubled))
    }

    constructor (spool: Queue, batchSize: int)
      requires spool.Valid() && spool.Value() == Fresh()
      ensures Valid() && Value([], false) == Init() && this.spool == spool && this.batchSize == batchSize
    {
      this.spool, this.batchSize, dropped := spool, batchSize, 0;
      traffic, arrived, doubled := Traffic([], [], [], []), [], 0;
    }

    /** Sends a batch and acknowledges it. A failed acknowledgement is not an error here. */
    method SendAndAck(batch: seq<Record>, sends: bool, persists: bool) returns (ok: bool)
      requires Valid()
      modifies spool, this`traffic
      ensures Valid() && Value(if ok then [] else batch, ok) == Flush(old(Value(batch, true)), sends, persists)
    {
      if |batch| == 0 {
        return true;
      }
      if !sends {
        return false;
      }
      var saved := spool.AckN(|batch|, persists);
      traffic := traffic.(stream := traffic.stream + [batch]);
      return true;
    }

    /** The packet goes to the spool first; only from there it can join the batch under way. */
    method Receive(pending: seq<Record>, inp: Input) returns (rest: seq<Record>, ok: bool)
      requires Valid() && inp.event.Arrives?
      modifies this, spool
      ensures Valid()
      ensures Value(rest, ok) == Ingest.Receive(old(Value(pending, true)), batchSize, spool.limits, inp)
    {
      rest, ok := pending, true;
      var outcome := spool.Append(inp.event.pkt, inp.event.size, inp.event.io);
      arrived := arrived + [inp.event.pkt];
      doubled := if outcome.StoredUnsynced? then doubled + 1 else doubled;
      if !outcome.Stored? {
        dropped := dropped + 1;
        return;
      }
      if 0 < |pending| && |pending| < batchSize {
        rest, ok := FillUp(pending, inp);
      }
    }

    /** Up to n more records out of the spool, behind those that are pending. */
    method Draw(pending: seq<Record>, n: int, readable: bool) returns (ok: bool, batch: seq<Record>)
      requires Valid()
      modifies spool
      ensures Valid() && Value(batch, ok) == Take(old(Value(pending, true)), n, readable)
    {
      var more;
      ok, more := spool.Next(n, readable);
      batch := if ok then pending + more else pending;
    }

    method FillUp(pending: seq<Record>, inp: Input) returns (rest: seq<Record>, ok: bool)
      requires Valid() && inp.event.Arrives?
      modifies spool, this`traffic
      ensures Valid()
      ensures Value(rest, ok)
           == Ingest.FillUp(old(Value(pending, true)), batchSize, inp.event.readable, inp.sends, inp.persists)
    {
      ok, rest := Draw(pending, batchSize - |pending|, inp.event.readable);
      if ok {
        rest, ok := SendIfFull(rest, inp.sends, inp.persists);
      }
    }

    method SendIfFull(batch: seq<Record>, sends: bool, persists: bool) returns (rest: seq<Record>, ok: bool)
      requires Valid()
      modifies spool, this`traffic
      ensures Valid() && Value(rest, ok) == Ingest.SendIfFull(old(Value(batch, true)), batchSize, sends, persists)
    {
      rest, ok := batch, true;
      if |batch| >= batchSize {
        ok := SendAndAck(batch, sends, persists);
        if ok {
          rest := [];
        }
      }
    }

    /** One stream, fed by `inputs`: a nil result of a cancelled run and an error both end it. */
    method PushOnce(inputs: seq<Input>) returns (pending: seq<Record>, open: bool)
      requires Valid()
      modifies this, spool
      ensures Valid()
      ensures Value(pending, open) == Iterations(Connect(old(Value([], false))), batchSize, spool.limits, inputs)
    {
      spool.Requeue();
      traffic := traffic.(past := traffic.past + traffic.stream, stream := []);
      pending, open := [], true;
      ghost var start := Value([], true);
      var i := 0;
      while i < |inputs| && open
        invariant i <= |inputs| && Valid()
        invariant Iterations(start, batchSize, spool.limits, inputs)
               == Iterations(Value(pending, open), batchSize, spool.limits, inputs[i..])
      {
        pending, open := Turn(pending, inputs[i]);
        assert inputs[i..][1..] == inputs[i + 1..];
        i := i + 1;
      }
    }

    /** The body of that loop. */
    method Turn(before: seq<Record>, inp: Input) returns (pending: seq<Record>, open: bool)
      requires Valid()
      modifies this, spool
      ensures Valid()
      ensures Value(pending, open) == Iterate(old(Value(before, true)), batchSize, spool.limits, inp)
    {
      pending, open := before, true;
      if |pending| == 0 {
        open, pending := Draw([], batchSize, inp.readable);
        if !open {
          return;
        }
        if |pending| >= batchSize {
          open := SendAndAck(pending, inp.sends, inp.persists);
          if open {
            pending := [];
          }
          return;
        }
      }
      pending, open := Respond(pending, inp);
    }

    method Respond(before: seq<Record>, inp: Input) returns (pending: seq<Record>, open: bool)
      requires Valid()
      modifies this, spool
      ensures Valid()
      ensures Value(pending, open) == Ingest.Respond(old(Value(before, true)), batchSize, spool.limits, inp)
    {
      pending, open := before, true;
      match inp.event
      case Cancelled =>
        var sent := SendAndAck(pending, inp.sends, inp.persists);
        if sent {
          pending := [];
        }
        open := false;
      case Arrives(_, _, _, _) =>
        pending, open := Receive(pending, inp);
      case TimerFires =>
        open := SendAndAck(pending, inp.sends, inp.persists);
        if open {
          pending := [];
        }
    }
  }
}
