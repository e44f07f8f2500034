/**
 * cmd/gt-agent/ingest.go, what one iteration of the uplink and whole runs of it achieve:
 * which arrivals are received, that they are all kept while the spool can take them, and
 * that batches are filled up and sent.
 */
module IngestProgress {
  import opened Seqs
  import opened Packets
  import opened Spool
  import opened Ingest

  // ---- which arrivals are received --------------------------------------------------------

  /** The next batchSize records are in one segment: the batch is full before the loop waits. */
  predicate FullBatchWaits(l: Link, batchSize: int) {
    0 < batchSize <= |l.spool.entries| && l.spool.entries[batchSize - 1].seg == l.spool.entries[0].seg
  }

  /** The iteration gets to its select: a batch is under way, or what there is does not fill one. */
  predicate Selects(l: Link, batchSize: int, inp: Input) {
    l.pending != [] || l.spool.entries == [] || (inp.readable && !FullBatchWaits(l, batchSize))
  }

  lemma {:induction false} TakesFullBatchIff(l: Link, batchSize: int, readable: bool)
    requires Inv(l, batchSize) && l.open && l.pending == [] && batchSize > 0
    ensures var t := Take(l, batchSize, readable);
            t.open && |t.pending| < batchSize <==> Selects(l, batchSize, Input(readable, TimerFires, true, true))
  {
    var rs := l.spool.entries;
    if rs != [] && readable {
      var n := if batchSize > |rs| then |rs| else batchSize;
      var count := Together(rs, 0, n);
      assert rs[..count] == Delivered(l.spool, batchSize, readable).value.0;
      if count == batchSize {
        assert rs[batchSize - 1].seg == rs[0].seg;
      } else {
        EntriesSegmented(l.spool);
        assert batchSize <= |rs| ==> rs[0].seg < rs[count].seg <= rs[batchSize - 1].seg;
      }
    }
  }

  ghost predicate SegmentedEntries(rs: seq<Record>) {
    forall i, j | 0 <= i < j < |rs| :: rs[i].seg <= rs[j].seg
  }

  lemma EntriesSegmented(s: State)
    requires s.Valid()
    ensures SegmentedEntries(s.entries)
  {
    forall i, j | 0 <= i < j < |s.entries|
      ensures s.entries[i].seg <= s.entries[j].seg
    {
      assert s.Log()[|s.acked| + i] == s.entries[i] && s.Log()[|s.acked| + j] == s.entries[j];
    }
  }

  /** Whether and how an arrival is counted. */
  function Received(l: Link, limits: Limits, e: Ingest.Event): Tally
    requires e.Arrives?
  {
    Counted(l.tally, e.pkt, Appended(l.spool, limits, e.pkt, e.size, e.io).0)
  }

  lemma {:induction false} RespondReceives(l: Link, t: Link, batchSize: int, limits: Limits, inp: Input)
    requires Inv(t, batchSize) && t.tally == l.tally && t.spool == l.spool.(nextIdx := t.spool.nextIdx)
    ensures Respond(t, batchSize, limits, inp).tally == if inp.event.Arrives? then Received(l, limits, inp.event) else l.tally
  {
    if inp.event.Arrives? {
      var e := inp.event;
      var u := Store(t, limits, e).1;
      assert Appended(t.spool, limits, e.pkt, e.size, e.io).0 == Appended(l.spool, limits, e.pkt, e.size, e.io).0;
      assert u.tally == Received(l, limits, e);
      FillUpTally(u, batchSize, e.readable, inp.sends, inp.persists);
    }
  }

  lemma FillUpTally(l: Link, batchSize: int, readable: bool, sends: bool, persists: bool)
    requires l.spool.nextIdx <= |l.spool.entries|
    ensures FillUp(l, batchSize, readable, sends, persists).tally == l.tally
  {
  }

  lemma {:induction false} EmptyHanded(l: Link, batchSize: int, limits: Limits, inp: Input)
    requires Between(l, batchSize) && l.open && batchSize > 0 && l.pending == []
    ensures var t := Take(l, batchSize, inp.readable);
            && Inv(t, batchSize) && t.tally == l.tally && t.spool == l.spool.(nextIdx := t.spool.nextIdx)
            && if Selects(l, batchSize, inp) then Iterate(l, batchSize, limits, inp) == Respond(t, batchSize, limits, inp)
               else Iterate(l, batchSize, limits, inp).tally == l.tally
  {
    var t := Take(l, batchSize, inp.readable);
    TakesFullBatchIff(l, batchSize, inp.readable);
    TakeKeeps(l, batchSize, inp.readable);
  }

  /** An iteration receives the packet that arrives exactly when it gets to its select; nothing else is ever counted. */
  lemma {:induction false} ArrivalIsReceivedIff(l: Link, batchSize: int, limits: Limits, inp: Input)
    requires Between(l, batchSize) && l.open && batchSize > 0
    ensures Iterate(l, batchSize, limits, inp).tally
            == if inp.event.Arrives? && Selects(l, batchSize, inp) then Received(l, limits, inp.event) else l.tally
  {
    if l.pending != [] {
      RespondReceives(l, l, batchSize, limits, inp);
      assert Iterate(l, batchSize, limits, inp) == Respond(l, batchSize, limits, inp);
    } else {
      EmptyHanded(l, batchSize, limits, inp);
      RespondReceives(l, Take(l, batchSize, inp.readable), batchSize, limits, inp);
    }
  }

  // ---- while the spool can take everything ------------------------------------------------

  /** The arrival fits beside what is unacknowledged, and all file operations on it succeed. */
  predicate Fits(l: Link, limits: Limits, step: Step) {
    step.Loops? && step.inp.event.Arrives? ==>
      && Bytes(l.spool.entries) + HEADER_SIZE + step.inp.event.size <= limits.maxBytes
      && step.inp.event.io == Io(true, true, true)
  }

  predicate AllFit(l: Link, batchSize: int, limits: Limits, run: seq<Step>)
    requires Legal(l, batchSize, limits, run)
    decreases |run|
  {
    run == [] ||
    (Fits(l, limits, run[0]) && AllFit(Apply(l, batchSize, limits, run[0]), batchSize, limits, run[1..]))
  }

  /** The packet a step receives, if any. */
  function ReceivedIn(l: Link, batchSize: int, step: Step): seq<Packet> {
    if step.Loops? && step.inp.event.Arrives? && Selects(l, batchSize, step.inp) then [step.inp.event.pkt] else []
  }

  /** The packets received in a run, in order. */
  function Arrivals(l: Link, batchSize: int, limits: Limits, run: seq<Step>): seq<Packet>
    requires Legal(l, batchSize, limits, run)
    decreases |run|
  {
    if run == [] then
      []
    else
      ReceivedIn(l, batchSize, run[0]) + Arrivals(Apply(l, batchSize, limits, run[0]), batchSize, limits, run[1..])
  }

  lemma {:induction false} StepReceives(l: Link, batchSize: int, limits: Limits, step: Step)
    requires Good(l, batchSize) && Ready(l) && Enabled(l, step) && batchSize > 0
    ensures var t := Apply(l, batchSize, limits, step);
            && t.tally.arrived == l.tally.arrived + ReceivedIn(l, batchSize, step)
            && (Fits(l, limits, step) ==> t.tally.dropped == l.tally.dropped && t.tally.doubled == l.tally.doubled)
  {
    if step.Loops? {
      ArrivalIsReceivedIff(l, batchSize, limits, step.inp);
      if step.inp.event.Arrives? {
        var e := step.inp.event;
        AppendOutcomeIff(l.spool, limits, e.pkt, e.size, e.io);
      }
    } else {
      assert Apply(l, batchSize, limits, step).tally == l.tally;
    }
  }

  lemma {:induction false} RunReceives(l: Link, batchSize: int, limits: Limits, run: seq<Step>)
    requires Good(l, batchSize) && batchSize > 0 && Legal(l, batchSize, limits, run)
    ensures var t := Run(l, batchSize, limits, run);
            && t.tally.arrived == l.tally.arrived + Arrivals(l, batchSize, limits, run)
            && (AllFit(l, batchSize, limits, run) ==> t.tally.dropped == l.tally.dropped && t.tally.doubled == l.tally.doubled)
    decreases |run|
  {
    if run != [] {
      StepKeeps(l, batchSize, limits, run[0]);
      StepReceives(l, batchSize, limits, run[0]);
      var t := Apply(l, batchSize, limits, run[0]);
      RunReceives(t, batchSize, limits, run[1..]);
      Associates(l.tally.arrived, ReceivedIn(l, batchSize, run[0]), Arrivals(t, batchSize, limits, run[1..]));
    }
  }

  /**
   * Every arrival the loop gets to is accounted for; and in a run in which each fits within the
   * limit when it arrives and no file operation on it fails, nothing is dropped: the log holds
   * exactly the packets received, in order, whatever happens to streams, sends and processes.
   */
  lemma EverythingThatFitsIsKept(batchSize: int, limits: Limits, run: seq<Step>)
    requires batchSize > 0 && Legal(Init(), batchSize, limits, run)
    ensures var t := Run(Init(), batchSize, limits, run);
            && t.tally.arrived == Arrivals(Init(), batchSize, limits, run)
            && (AllFit(Init(), batchSize, limits, run) ==>
                  t.tally.dropped == 0 && t.tally.doubled == 0
                  && Contents(t.spool.Log()) == Arrivals(Init(), batchSize, limits, run))
  {
    InitIsGood(batchSize);
    RunKeeps(Init(), batchSize, limits, run);
    RunReceives(Init(), batchSize, limits, run);
    var t := Run(Init(), batchSize, limits, run);
    assert [] + Arrivals(Init(), batchSize, limits, run) == Arrivals(Init(), batchSize, limits, run);
    SubseqLength(Contents(t.spool.Log()), t.tally.arrived);
  }

  // ---- filling up and sending -------------------------------------------------------------

  /**
   * A packet stored while a batch is under way, with nothing else waiting, joins the batch,
   * which is sent as soon as it is full.
   */
  lemma {:induction false} ArrivalJoinsBatch(l: Link, batchSize: int, limits: Limits, inp: Input)
    requires Between(l, batchSize) && l.open && batchSize > 0 && l.pending != []
    requires inp.event.Arrives? && Fits(l, limits, Loops(inp)) && inp.event.readable && inp.sends
    requires l.spool.nextIdx == |l.spool.entries|
    ensures var t := Iterate(l, batchSize, limits, inp);
            var batch := l.pending + [Record(inp.event.pkt, inp.event.size, Rolled(l.spool.tail, limits).seg)];
            && t.open
            && if |batch| < batchSize then t.pending == batch && t.traffic == l.traffic
               else t.pending == [] && t.traffic == l.traffic.(stream := l.traffic.stream + [batch])
  {
    var e := inp.event;
    var u := Store(l, limits, e).1;
    AppendOutcomeIff(l.spool, limits, e.pkt, e.size, e.io);
    var rec := Record(e.pkt, e.size, Rolled(l.spool.tail, limits).seg);
    assert u.spool.entries == l.spool.entries + [rec];
    assert Together(u.spool.entries, u.spool.nextIdx, 1) == 1;
    assert u.spool.entries[u.spool.nextIdx..u.spool.nextIdx + 1] == [rec];
    assert Take(u, batchSize - |u.pending|, true).pending == l.pending + [rec];
  }

  /** Cancelling sends and acknowledges the batch under way, if sending works, and ends the stream. */
  lemma {:induction false} CancelSendsBatch(l: Link, batchSize: int, limits: Limits, inp: Input)
    requires Between(l, batchSize) && l.open && batchSize > 0 && l.pending != [] && inp.event.Cancelled?
    ensures var t := Iterate(l, batchSize, limits, inp);
            && !t.open
            && if inp.sends then t.traffic.stream == l.traffic.stream + [l.pending] && t.spool.acked == l.spool.acked + l.pending
               else t.traffic == l.traffic && t.spool == l.spool
  {
    AckKeeps(l.spool, |l.pending|, inp.persists);
  }

  // ---- streams and queues that come and go ------------------------------------------------

  function LoopSteps(inputs: seq<Input>): seq<Step> {
    seq(|inputs|, i requires 0 <= i < |inputs| => Loops(inputs[i]))
  }

  /** A stream that works long enough sends and acknowledges all there is. */
  lemma {:induction false} LoopsDrain(l: Link, batchSize: int, limits: Limits, inputs: seq<Input>)
    requires Good(l, batchSize) && l.open && l.alive && batchSize > 0
    requires |l.spool.entries| <= |inputs| && forall inp | inp in inputs :: Works(inp)
    ensures Legal(l, batchSize, limits, LoopSteps(inputs))
    ensures Run(l, batchSize, limits, LoopSteps(inputs)).spool.entries == []
    decreases |inputs|
  {
    if inputs != [] {
      var t := Iterate(l, batchSize, limits, inputs[0]);
      StepKeeps(l, batchSize, limits, Loops(inputs[0]));
      WorkingIterationAcks(l, batchSize, limits, inputs[0]);
      LoopsDrain(t, batchSize, limits, inputs[1..]);
      assert LoopSteps(inputs)[1..] == LoopSteps(inputs[1..]);
    }
  }

  /** After any loss of a stream a new one can be opened, and when it works it sends everything in the spool. */
  lemma NewStreamDrains(l: Link, batchSize: int, limits: Limits, inputs: seq<Input>)
    requires Good(l, batchSize) && l.alive && !l.open && batchSize > 0
    requires |l.spool.entries| <= |inputs| && forall inp | inp in inputs :: Works(inp)
    ensures Legal(l, batchSize, limits, [Connects] + LoopSteps(inputs))
    ensures Run(l, batchSize, limits, [Connects] + LoopSteps(inputs)).spool.entries == []
  {
    StepKeeps(l, batchSize, limits, Connects);
    LoopsDrain(Connect(l), batchSize, limits, inputs);
    assert ([Connects] + LoopSteps(inputs))[1..] == LoopSteps(inputs);
  }

  /** A queue that is closed and opened again goes on where it was, with what was in flight to be sent again. */
  lemma {:induction false} CloseAndReopenResumes(l: Link, batchSize: int, limits: Limits)
    requires Good(l, batchSize) && l.alive && !l.open && batchSize > 0
    ensures Legal(l, batchSize, limits, [Step.Closes(true), Opens(OpenIo(NoFault, true)), Connects])
    ensures var t := Run(l, batchSize, limits, [Step.Closes(true), Opens(OpenIo(NoFault, true)), Connects]);
            && t.alive && t.open && t.pending == [] && t.tally == l.tally
            && t.spool.acked == l.spool.acked && t.spool.entries == l.spool.entries && t.spool.nextIdx == 0
  {
    var t := Shut(l, true);
    var u := Reopen(t, OpenIo(NoFault, true));
    ReopenedResumes(l, batchSize);
    ThreeSteps(l, t, u, batchSize, limits, Step.Closes(true), Opens(OpenIo(NoFault, true)), Connects);
  }

  lemma {:induction false} ReopenedResumes(l: Link, batchSize: int)
    requires Good(l, batchSize) && l.alive && batchSize > 0
    ensures Ready(l) && Ready(Shut(l, true))
    ensures var u := Reopen(Shut(l, true), OpenIo(NoFault, true));
            && Ready(u) && u.alive && !u.open && u.tally == l.tally
            && u.spool.acked == l.spool.acked && u.spool.entries == l.spool.entries && u.spool.nextIdx == 0
  {
    var t := Shut(l, true);
    ShutKeeps(l, batchSize, true);
    CloseThenOpenResumes(l.spool);
    assert t.spool == Requeued(Closed(l.spool, true));
    ReopenKeeps(t, batchSize, OpenIo(NoFault, true));
  }

  lemma ThreeSteps(l: Link, t: Link, u: Link, batchSize: int, limits: Limits, a: Step, b: Step, c: Step)
    requires Ready(l) && Enabled(l, a) && t == Apply(l, batchSize, limits, a)
    requires Ready(t) && Enabled(t, b) && u == Apply(t, batchSize, limits, b)
    requires Ready(u) && Enabled(u, c)
    ensures Legal(l, batchSize, limits, [a, b, c])
    ensures Run(l, batchSize, limits, [a, b, c]) == Apply(u, batchSize, limits, c)
  {
    assert [a, b, c][1..] == [b, c] && [b, c][1..] == [c] && [c][1..] == [];
    assert Legal(u, batchSize, limits, [c]) && Legal(t, batchSize, limits, [b, c]);
    assert Run(u, batchSize, limits, [c]) == Apply(u, batchSize, limits, c);
  }
}
