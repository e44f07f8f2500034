/**
 * sdk/tunnel.go, tunnelMux: many logical streams over one connection. One receive loop
 * routes frames; every stream has its own consumer, which ends with an End frame.
 */
module TunnelMux {
  import opened Seqs
  import opened LogicalStream

  type StreamId = nat

  /** Streams are numbered as they are opened: an id can be used again, a number cannot. */
  type Number = nat

  /** Where the receive loop is with the current frame. */
  datatype Receiver = Ready | Delivering(id: StreamId, to: Number, r: Req) | Closing(id: StreamId, why: Why)

  /** `ends` are the End frames attempted, by stream; `removed` the streams out of the table. */
  datatype Mux = Mux(table: map<StreamId, Number>, streams: seq<Stream>, receiver: Receiver, ends: seq<Number>, stopped: bool)

  function Init(): Mux {
    Mux(map[], [], Ready, [], false)
  }

  datatype Step =
    | Arrives(id: StreamId, f: Frame)
    | Delivers(d: Delivery)
    | Closes
    | Consumes(n: Number, m: Move)
    | Removes(id: StreamId, n: Number)
    | Cancels
    | Stops

  predicate Valid(x: Mux) {
    && (forall id | id in x.table :: x.table[id] < |x.streams|)
    && (x.receiver.Delivering? ==> x.receiver.to < |x.streams|)
  }

  predicate Enabled(x: Mux, step: Step) {
    match step
    case Arrives(_, _) => x.receiver.Ready? && !x.stopped
    case Delivers(d) => x.receiver.Delivering? && x.receiver.to < |x.streams| && Possible(x.streams[x.receiver.to], d)
    case Closes => x.receiver.Closing?
    case Consumes(n, m) => n < |x.streams| && CanMove(x.streams[n], m)
    case Removes(id, n) => n < |x.streams| && x.streams[n].consumer.Ended? && id in x.table && x.table[id] == n
    case Cancels => true
    case Stops => x.receiver.Ready?
  }

  function WithStream(x: Mux, n: Number, s: Stream): Mux
    requires n < |x.streams|
  {
    x.(streams := x.streams[n := s])
  }

  /** handleRequest, up to the end of its locked section: the first frame of an id opens a stream. */
  function Routed(x: Mux, id: StreamId): Mux {
    if id in x.table then x
    else x.(table := x.table[id := |x.streams|], streams := x.streams + [Opened()])
  }

  function Received(x: Mux, id: StreamId, f: Frame): Mux {
    match f
    case Request(r) => var y := Routed(x, id); y.(receiver := Delivering(id, y.table[id], r))
    case Cut(kind) =>
      (if kind.Malformed? then Routed(x, id) else x).(receiver := Closing(id, ByFrame(kind)))
  }

  function Apply(x: Mux, step: Step): Mux
    requires Valid(x) && Enabled(x, step)
  {
    match step
    case Arrives(id, f) => Received(x, id, f)
    case Delivers(d) =>
      var y := WithStream(x, x.receiver.to, Delivered(x.streams[x.receiver.to], x.receiver.r, d));
      y.(receiver := if d.Overflows? then Closing(x.receiver.id, ByOverflow) else Ready)
    case Closes =>
      var y := x.(receiver := Ready);
      if x.receiver.id !in x.table then y
      else WithStream(y, x.table[x.receiver.id], Closed(x.streams[x.table[x.receiver.id]], x.receiver.why))
    case Consumes(n, m) =>
      var y := WithStream(x, n, Moved(x.streams[n], m));
      if m.Ends? then y.(ends := x.ends + [n]) else y
    case Removes(id, n) => x.(table := x.table - {id})
    case Cancels => x.(streams := seq(|x.streams|, i requires 0 <= i < |x.streams| => Cancelled(x.streams[i])))
    case Stops =>
      x.(stopped := true,
         streams := seq(|x.streams|, i requires 0 <= i < |x.streams| =>
                          if i in x.table.Values then Closed(x.streams[i], ByEnd) else x.streams[i]))
  }

  // ---- what every step keeps ----------------------------------------------------------

  ghost predicate AllGood(streams: seq<Stream>) {
    forall n: nat | n < |streams| :: LogicalStream.Inv(streams[n])
  }

  /**
   * An id leads to one stream; a stream that turned a request away is being closed for it and
   * nothing else is; and no request goes to such a stream, or comes after the end.
   */
  predicate Routing(x: Mux) {
    && Valid(x)
    && (forall a, b | a in x.table && b in x.table && x.table[a] == x.table[b] :: a == b)
    && (forall id | id in x.table ::
          Skipped(x.streams[x.table[id]]) <==> x.receiver == Closing(id, ByOverflow))
    && (x.receiver.Closing? ==> x.receiver.why.ByFrame? || x.receiver.why.ByOverflow?)
    && (x.receiver.Delivering? ==>
          && !Skipped(x.streams[x.receiver.to])
          && forall id | id in x.table :: x.table[id] == x.receiver.to <==> id == x.receiver.id)
    && (x.stopped ==> x.receiver.Ready?)
    && (forall s | s in x.streams && s.past.why.ByEnd? :: x.stopped)
  }

  /** A stream's End is attempted when its consumer has returned, and once. */
  ghost predicate EndsMatch(streams: seq<Stream>, ends: seq<Number>) {
    && (forall n: nat | n < |streams| :: n in ends <==> streams[n].consumer.Ended?)
    && (forall n | n in ends :: n < |streams|)
    && (forall i, j | 0 <= i < j < |ends| :: ends[i] != ends[j])
  }

  ghost predicate Inv(x: Mux) {
    Routing(x) && AllGood(x.streams) && EndsMatch(x.streams, x.ends)
  }

  lemma {:induction false} InitInv()
    ensures Inv(Init())
  {
  }

  /** One stream goes on. */
  lemma {:induction false} OneGoesOn(streams: seq<Stream>, n: Number, s: Stream)
    requires AllGood(streams) && n < |streams| && LogicalStream.Inv(s)
    ensures AllGood(streams[n := s])
  {
  }

  lemma {:induction false} EndsGoOn(streams: seq<Stream>, ends: seq<Number>, n: Number, s: Stream)
    requires EndsMatch(streams, ends) && n < |streams|
    ensures s.consumer.Ended? == streams[n].consumer.Ended? ==> EndsMatch(streams[n := s], ends)
    ensures s.consumer.Ended? && !streams[n].consumer.Ended? ==> EndsMatch(streams[n := s], ends + [n])
  {
  }

  lemma {:induction false} OneOpens(streams: seq<Stream>, ends: seq<Number>)
    requires AllGood(streams) && EndsMatch(streams, ends)
    ensures AllGood(streams + [Opened()]) && EndsMatch(streams + [Opened()], ends)
  {
  }

  lemma {:induction false} RoutedRoutes(x: Mux, id: StreamId)
    requires Routing(x) && x.receiver.Ready?
    ensures Routing(Routed(x, id)) && id in Routed(x, id).table && Routed(x, id).receiver.Ready?
  {
  }

  lemma {:induction false} RoutedKeeps(x: Mux, id: StreamId)
    requires Inv(x) && x.receiver.Ready?
    ensures Inv(Routed(x, id)) && id in Routed(x, id).table && Routed(x, id).receiver.Ready?
  {
    OneOpens(x.streams, x.ends);
    RoutedRoutes(x, id);
  }

  lemma {:induction false} ArrivesKeeps(x: Mux, id: StreamId, f: Frame)
    requires Inv(x) && Enabled(x, Arrives(id, f))
    ensures Inv(Received(x, id, f))
  {
    RoutedKeeps(x, id);
    var y := Routed(x, id);
    assert f.Request? ==> Received(x, id, f) == y.(receiver := Delivering(id, y.table[id], f.r));
    assert f == Cut(Malformed) ==> Received(x, id, f) == y.(receiver := Closing(id, ByFrame(Malformed)));
  }

  lemma {:induction false} DeliversRoutes(x: Mux, d: Delivery, s: Stream)
    requires Routing(x) && Enabled(x, Delivers(d))
    requires Skipped(s) <==> d.Overflows?
    requires s.past.why == x.streams[x.receiver.to].past.why
    ensures Routing(WithStream(x, x.receiver.to, s).(
              receiver := if d.Overflows? then Closing(x.receiver.id, ByOverflow) else Ready))
  {
  }

  lemma {:induction false} DeliversKeeps(x: Mux, d: Delivery)
    requires Inv(x) && Enabled(x, Delivers(d))
    ensures Inv(Apply(x, Delivers(d)))
  {
    var n := x.receiver.to;
    var s := Delivered(x.streams[n], x.receiver.r, d);
    assert LogicalStream.Inv(s) && (Skipped(s) <==> d.Overflows?) by {
      assert LogicalStream.Inv(x.streams[n]) && !x.streams[n].past.why.ByEnd?;
      DeliveryKeeps(x.streams[n], x.receiver.r, d);
    }
    assert s.past.why == x.streams[n].past.why && s.consumer == x.streams[n].consumer;
    OneGoesOn(x.streams, n, s);
    EndsGoOn(x.streams, x.ends, n, s);
    DeliversRoutes(x, d, s);
  }

  lemma {:induction false} ClosesRoutes(x: Mux, n: Number, s: Stream)
    requires Routing(x) && x.receiver.Closing? && x.receiver.id in x.table && n == x.table[x.receiver.id]
    requires !Skipped(s) && (s.past.why.ByEnd? ==> x.streams[n].past.why.ByEnd?)
    ensures Routing(WithStream(x, n, s).(receiver := Ready))
  {
  }

  lemma {:induction false} ClosesKeeps(x: Mux)
    requires Inv(x) && Enabled(x, Closes)
    ensures Inv(Apply(x, Closes))
  {
    if x.receiver.id in x.table {
      var n := x.table[x.receiver.id];
      var s := Closed(x.streams[n], x.receiver.why);
      assert LogicalStream.Inv(s) by {
        CloseKeeps(x.streams[n], x.receiver.why);
      }
      OneGoesOn(x.streams, n, s);
      EndsGoOn(x.streams, x.ends, n, s);
      ClosesRoutes(x, n, s);
    }
  }

  lemma {:induction false} ConsumesRoutes(x: Mux, n: Number, s: Stream)
    requires Routing(x) && n < |x.streams| && (Skipped(s) <==> Skipped(x.streams[n]))
    requires s.past.why == x.streams[n].past.why
    ensures Routing(WithStream(x, n, s))
  {
  }

  lemma {:induction false} ConsumesKeeps(x: Mux, n: Number, m: Move)
    requires Inv(x) && Enabled(x, Consumes(n, m))
    ensures Inv(Apply(x, Consumes(n, m)))
  {
    var s := Moved(x.streams[n], m);
    MoveKeeps(x.streams[n], m);
    OneGoesOn(x.streams, n, s);
    EndsGoOn(x.streams, x.ends, n, s);
    ConsumesRoutes(x, n, s);
  }

  /** What closing or cancelling all streams does to one of them. */
  ghost predicate OneKept(x: Mux, step: Step, n: Number)
    requires Valid(x) && Enabled(x, step) && n < |x.streams|
  {
    && |Apply(x, step).streams| == |x.streams|
    && var s, t := x.streams[n], Apply(x, step).streams[n];
       && LogicalStream.Inv(t) && t.consumer == s.consumer
       && (Skipped(t) ==> Skipped(s)) && (step.Cancels? && Skipped(s) ==> Skipped(t))
       && (t.past.why.ByEnd? ==> s.past.why.ByEnd? || step.Stops?)
  }

  lemma {:induction false} OneOfAll(x: Mux, step: Step, n: Number)
    requires Inv(x) && Enabled(x, step) && (step.Cancels? || step.Stops?) && n < |x.streams|
    ensures OneKept(x, step, n)
  {
    if step.Stops? && n in x.table.Values {
      var id :| id in x.table && x.table[id] == n;
      CloseKeeps(x.streams[n], ByEnd);
    }
  }

  lemma {:induction false} OthersKeep(x: Mux, step: Step)
    requires Inv(x) && Enabled(x, step) && (step.Removes? || step.Cancels? || step.Stops?)
    ensures Inv(Apply(x, step))
  {
    if !step.Removes? {
      forall n: nat | n < |x.streams|
        ensures OneKept(x, step, n)
      {
        OneOfAll(x, step, n);
      }
      AllKept(x, step);
    }
  }

  lemma {:induction false} AllKept(x: Mux, step: Step)
    requires Inv(x) && Enabled(x, step) && (step.Cancels? || step.Stops?)
    requires forall n: nat | n < |x.streams| :: OneKept(x, step, n)
    ensures Inv(Apply(x, step))
  {
    var y := Apply(x, step);
    assert |y.streams| == |x.streams| by {
      assert x.streams != [] ==> OneKept(x, step, 0);
    }
    forall n: nat | n < |y.streams|
      ensures LogicalStream.Inv(y.streams[n]) && y.streams[n].consumer == x.streams[n].consumer
    {
      assert OneKept(x, step, n);
    }
    assert AllGood(y.streams) && EndsMatch(y.streams, y.ends);
    AllRouted(x, step);
  }

  lemma {:induction false} AllRouted(x: Mux, step: Step)
    requires Routing(x) && Enabled(x, step) && (step.Cancels? || step.Stops?)
    requires forall n: nat | n < |x.streams| :: OneKept(x, step, n)
    ensures Routing(Apply(x, step))
  {
    var y := Apply(x, step);
    forall id | id in y.table
      ensures Skipped(y.streams[y.table[id]]) <==> y.receiver == Closing(id, ByOverflow)
    {
      assert OneKept(x, step, x.table[id]);
    }
    forall s | s in y.streams && s.past.why.ByEnd?
      ensures y.stopped
    {
      var n: nat :| n < |y.streams| && y.streams[n] == s;
      assert OneKept(x, step, n) && x.streams[n] in x.streams;
    }
    assert y.receiver.Delivering? ==> OneKept(x, step, x.receiver.to);
  }

  lemma {:induction false} StepKeeps(x: Mux, step: Step)
    requires Inv(x) && Enabled(x, step)
    ensures Inv(Apply(x, step))
  {
    match step
    case Arrives(id, f) => ArrivesKeeps(x, id, f);
    case Delivers(d) => DeliversKeeps(x, d);
    case Closes => ClosesKeeps(x);
    case Consumes(n, m) => ConsumesKeeps(x, n, m);
    case _ => OthersKeep(x, step);
  }

  predicate Legal(x: Mux, run: seq<Step>)
    decreases |run|
  {
    run == [] || (Valid(x) && Enabled(x, run[0]) && Legal(Apply(x, run[0]), run[1..]))
  }

  function Run(x: Mux, run: seq<Step>): Mux
    requires Legal(x, run)
    decreases |run|
  {
    if run == [] then x else Run(Apply(x, run[0]), run[1..])
  }

  lemma {:induction false} RunKeeps(x: Mux, run: seq<Step>)
    requires Inv(x) && Legal(x, run)
    ensures Inv(Run(x, run))
    decreases |run|
  {
    if run != [] {
      StepKeeps(x, run[0]);
      RunKeeps(Apply(x, run[0]), run[1..]);
    }
  }

  // ---- what every stream can rely on --------------------------------------------------

  /**
   * In every interleaving, every stream returns its requests in order, each at most once; it
   * returns a prefix of them if its frames keep to the rule, or if no request was queued after
   * it was closed; after a failure it returns at most one more, and what came before that is a
   * prefix; and its queue never holds more than 64.
   */
  lemma RequestsArriveInOrder(run: seq<Step>, n: Number)
    requires Legal(Init(), run) && n < |Run(Init(), run).streams|
    ensures var s := Run(Init(), run).streams[n];
            && s.past.asked == Requests(s.past.heard)
            && Subseq(s.past.returned, s.past.asked)
            && (Safe(s.past.heard) || s.past.post == [] ==> s.past.returned <= s.past.asked)
            && (s.failed ==> s.past.late <= 1 && s.past.late <= |s.past.returned|
                             && s.past.returned[..|s.past.returned| - s.past.late] <= s.past.asked)
            && |s.queue| <= QUEUE_SIZE
  {
    InitInv();
    RunKeeps(Init(), run);
    var s := Run(Init(), run).streams[n];
    ReturnedInOrder(s);
    if Safe(s.past.heard) {
      SafeIsPrefix(s);
    }
    if s.past.post == [] {
      ReturnedIsPrefix(s);
    }
    if s.failed {
      AtMostOneAfterFailure(s);
    }
  }

  /** Every opened stream attempts exactly one End, when its consumer has returned. */
  lemma OneEndPerStream(run: seq<Step>, n: Number)
    requires Legal(Init(), run) && n < |Run(Init(), run).streams|
    ensures var x := Run(Init(), run);
            && (n in x.ends <==> x.streams[n].consumer.Ended?)
            && forall i, j | 0 <= i < |x.ends| && 0 <= j < |x.ends| && x.ends[i] == n && x.ends[j] == n :: i == j
  {
    InitInv();
    RunKeeps(Init(), run);
  }

  /** The stream a step is about; None for the two that close or cancel all of them. */
  function About(x: Mux, step: Step): Option<Number> {
    match step
    case Delivers(_) => if x.receiver.Delivering? then Some(x.receiver.to) else None
    case Closes => if x.receiver.Closing? && x.receiver.id in x.table then Some(x.table[x.receiver.id]) else None
    case Consumes(n, _) => Some(n)
    case _ => None
  }

  /** Frames of one stream and its consumer never change another one. */
  lemma {:induction false} StreamsAreIsolated(x: Mux, step: Step, n: Number)
    requires Valid(x) && Enabled(x, step) && n < |x.streams|
    requires !step.Cancels? && !step.Stops? && About(x, step) != Some(n)
    ensures n < |Apply(x, step).streams| && Apply(x, step).streams[n] == x.streams[n]
  {
  }

  /** The receive loop never waits for a consumer: a frame is dealt with in at most two more steps of its own. */
  lemma {:induction false} ReceiverNeverWaits(x: Mux)
    requires Routing(x) && !x.receiver.Ready?
    ensures x.receiver.Delivering? ==>
              exists d :: Enabled(x, Delivers(d)) && !Apply(x, Delivers(d)).receiver.Delivering?
    ensures x.receiver.Closing? ==> Enabled(x, Closes) && Apply(x, Closes).receiver.Ready?
  {
    if x.receiver.Delivering? {
      DeliveryNeverBlocks(x.streams[x.receiver.to]);
      var d :| Possible(x.streams[x.receiver.to], d);
      assert Enabled(x, Delivers(d));
    }
  }
}
