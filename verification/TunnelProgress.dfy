/**
 * sdk/tunnel.go: what a consumer can rely on when its stream or the whole tunnel is closed:
 * it gets what is queued and then the end, or the failure at once, and never waits for ever.
 */
module TunnelProgress {
  import opened Seqs
  import opened LogicalStream
  import opened TunnelMux

  // ---- one stream -------------------------------------------------------------------------

  predicate CanMoveAll(s: Stream, moves: seq<Move>)
    decreases |moves|
  {
    moves == [] || (CanMove(s, moves[0]) && CanMoveAll(Moved(s, moves[0]), moves[1..]))
  }

  function MovedAll(s: Stream, moves: seq<Move>): Stream
    requires CanMoveAll(s, moves)
    decreases |moves|
  {
    if moves == [] then s else MovedAll(Moved(s, moves[0]), moves[1..])
  }

  lemma TwoMoves(s: Stream, a: Move, b: Move, rest: seq<Move>)
    requires CanMove(s, a) && CanMove(Moved(s, a), b) && CanMoveAll(Moved(Moved(s, a), b), rest)
    ensures CanMoveAll(s, [a, b] + rest) && MovedAll(s, [a, b] + rest) == MovedAll(Moved(Moved(s, a), b), rest)
  {
    assert ([a, b] + rest)[1..] == [b] + rest && ([b] + rest)[1..] == rest;
    assert CanMoveAll(Moved(s, a), [b] + rest);
  }

  /** After an orderly close Recv still returns all that is queued, in order, and then the end each time. */
  lemma {:induction false} ClosedStreamDrains(s: Stream) returns (moves: seq<Move>)
    requires s.done && !s.failed && s.consumer.Idle?
    ensures CanMoveAll(s, moves)
    ensures var t := MovedAll(s, moves);
            && t == s.(queue := [], past := s.past.(returned := s.past.returned + s.queue))
            && CanMove(t, Begins) && CanMove(Moved(t, Begins), SeesDone) && Moved(Moved(t, Begins), SeesDone) == t
    decreases |s.queue|
  {
    if s.queue == [] {
      moves := [];
      assert s.past.returned + [] == s.past.returned;
    } else {
      var t := Moved(Moved(s, Begins), SeesDone);
      assert t == s.(queue := s.queue[1..], past := s.past.(returned := s.past.returned + [s.queue[0]]));
      var rest := ClosedStreamDrains(t);
      TwoMoves(s, Begins, SeesDone, rest);
      moves := [Begins, SeesDone] + rest;
      assert s.past.returned + [s.queue[0]] + s.queue[1..] == s.past.returned + s.queue;
    }
  }

  /**
   * The first close decides. A reset, a malformed request or an overflow fails the stream:
   * Recv reports that before anything queued. A half-close or the end of the tunnel does not:
   * Recv goes on. Either way the context is cancelled, and a waiting Recv can return.
   */
  lemma FirstCloseDecides(s: Stream, why: Why)
    requires !s.done && why != NotYet
    ensures var t := Closed(s, why);
            && t.done && t.cancelled && t.queue == s.queue && t.consumer == s.consumer && t.past.returned == s.past.returned
            && (t.failed <==> why == ByOverflow || why == ByFrame(Reset) || why == ByFrame(Malformed))
            && (s.consumer.Idle? ==> (Moved(t, Begins) == t <==> t.failed))
            && (s.consumer.Receiving? ==> CanMove(t, SeesDone) && CanMove(t, SeesCancel))
            && forall later: Why :: later != NotYet ==> Closed(t, later) == t.(past := Closed(t, later).past)
  {
  }

  // ---- the tunnel -------------------------------------------------------------------------

  /** A stream whose consumer has not returned is in the table. */
  ghost predicate InTable(x: Mux, n: Number) {
    exists id :: id in x.table && x.table[id] == n
  }

  ghost predicate Followed(x: Mux) {
    && Valid(x)
    && (forall n: nat | n < |x.streams| && !x.streams[n].consumer.Ended? :: InTable(x, n))
    && (x.stopped ==> forall n: nat | n < |x.streams| && !x.streams[n].consumer.Ended? :: x.streams[n].done)
  }

  /** Streams stay in the table until their consumer has returned, and a new one enters it. */
  predicate TableStays(x: Mux, y: Mux, step: Step) {
    && |x.streams| <= |y.streams| <= |x.streams| + 1
    && (forall id | id in x.table :: (id in y.table && y.table[id] == x.table[id]) || step == Removes(id, x.table[id]))
    && (|y.streams| > |x.streams| ==> step.Arrives? && step.id in y.table && y.table[step.id] == |x.streams| && !x.stopped)
    && (y.stopped <==> x.stopped || step.Stops?)
  }

  lemma {:induction false} StepTable(x: Mux, step: Step)
    requires Valid(x) && Enabled(x, step)
    ensures TableStays(x, Apply(x, step), step)
  {
  }

  /** A closed stream stays closed, and a consumer that has returned has returned. */
  predicate Onward(s: Stream, t: Stream) {
    (s.done ==> t.done) && (s.consumer.Ended? ==> t.consumer.Ended?)
  }

  lemma {:induction false} StepStream(x: Mux, step: Step, n: Number)
    requires Valid(x) && Enabled(x, step) && n < |x.streams|
    ensures var y := Apply(x, step);
            n < |y.streams| && Onward(x.streams[n], y.streams[n])
  {
    if !step.Cancels? && !step.Stops? && About(x, step) != Some(n) {
      StreamsAreIsolated(x, step, n);
    }
  }

  lemma StopsAllInTable(x: Mux, n: Number)
    requires Valid(x) && Enabled(x, Stops) && n < |x.streams| && InTable(x, n)
    ensures n < |Apply(x, Stops).streams| && Apply(x, Stops).streams[n].done
  {
    assert n in x.table.Values;
  }

  lemma {:induction false} FollowedTable(x: Mux, step: Step, n: Number)
    requires Followed(x) && Enabled(x, step)
    requires n < |Apply(x, step).streams| && !Apply(x, step).streams[n].consumer.Ended?
    ensures InTable(Apply(x, step), n)
  {
    var y := Apply(x, step);
    StepTable(x, step);
    if n < |x.streams| {
      StepStream(x, step, n);
      assert InTable(x, n);
      var id :| id in x.table && x.table[id] == n;
      assert step != Removes(id, n);
      assert id in y.table && y.table[id] == n;
    }
  }

  lemma {:induction false} FollowedDone(x: Mux, step: Step, n: Number)
    requires Followed(x) && Enabled(x, step)
    requires var y := Apply(x, step); y.stopped && n < |y.streams| && !y.streams[n].consumer.Ended?
    ensures Apply(x, step).streams[n].done
  {
    StepTable(x, step);
    StepStream(x, step, n);
    if step.Stops? {
      StopsAllInTable(x, n);
    }
  }

  lemma {:induction false} FollowedRun(x: Mux, run: seq<Step>)
    requires TunnelMux.Inv(x) && Followed(x) && Legal(x, run)
    ensures Followed(Run(x, run))
    decreases |run|
  {
    if run != [] {
      var y := Apply(x, run[0]);
      StepKeeps(x, run[0]);
      forall n: nat | n < |y.streams| && !y.streams[n].consumer.Ended?
        ensures InTable(y, n)
      {
        FollowedTable(x, run[0], n);
      }
      forall n: nat | y.stopped && n < |y.streams| && !y.streams[n].consumer.Ended?
        ensures y.streams[n].done
      {
        FollowedDone(x, run[0], n);
      }
      FollowedRun(y, run[1..]);
    }
  }

  /**
   * Once the tunnel has stopped, whatever happened before, every stream whose consumer has not
   * returned is closed: a Recv that waits can return, and one that begins returns at once when
   * the stream failed or its queue is empty.
   */
  lemma NoConsumerIsStuck(run: seq<Step>, n: Number)
    requires Legal(Init(), run) && Run(Init(), run).stopped
    requires n < |Run(Init(), run).streams| && !Run(Init(), run).streams[n].consumer.Ended?
    ensures var x := Run(Init(), run);
            && x.streams[n].done
            && (x.streams[n].consumer.Receiving? ==> Enabled(x, Consumes(n, SeesDone)))
            && (x.streams[n].consumer.Idle? ==> Enabled(x, Consumes(n, Begins)) && Enabled(x, Consumes(n, Ends)))
  {
    InitInv();
    FollowedRun(Init(), run);
  }

  /** Cancelling the tunnel's context reaches every stream, and wakes every Recv that waits. */
  lemma CancelReachesAll(x: Mux, n: Number)
    requires Valid(x) && n < |x.streams|
    ensures var y := Apply(x, Cancels);
            && |y.streams| == |x.streams| && y.streams[n] == x.streams[n].(cancelled := true)
            && (x.streams[n].consumer.Receiving? ==> Enabled(y, Consumes(n, SeesCancel)))
  {
  }

  /**
   * While an id is in the table its requests go to the stream it leads to; once the consumer
   * has returned and the stream is taken out, the next request opens a new stream.
   */
  lemma ReusedIdOpensNewStream(x: Mux, id: StreamId, n: Number, r: Req)
    requires TunnelMux.Inv(x) && Enabled(x, Removes(id, n)) && x.receiver.Ready? && !x.stopped
    ensures Apply(x, Arrives(id, Request(r))).receiver == Delivering(id, n, r)
    ensures var y := Apply(x, Removes(id, n));
            && y.streams == x.streams && Valid(y) && Enabled(y, Arrives(id, Request(r)))
            && var z := Apply(y, Arrives(id, Request(r)));
               && z.streams == x.streams + [Opened()] && z.table[id] == |x.streams|
               && z.receiver == Delivering(id, |x.streams|, r)
  {
  }
}
