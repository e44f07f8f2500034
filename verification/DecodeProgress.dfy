/**
 * cmd/gt-pipeline/capture_task.go, what the decode pipeline achieves: when a decoder counts
 * as attached, what a drain sends, where a fed packet goes, and that a live session with a
 * decoder gets every packet decoded and processed.
 */
module DecodeProgress {
  import opened Seqs
  import opened Packets
  import opened DecodePipeline
  import PendingQueue

  lemma {:induction false} RunSnoc(s: State, steps: seq<Step>, step: Step)
    requires Legal(s, steps) && Enabled(Run(s, steps), step)
    ensures Legal(s, steps + [step])
    ensures Run(s, steps + [step]) == Apply(Run(s, steps), step)
    decreases |steps|
  {
    if steps == [] {
      assert steps + [step] == [step] && [step][1..] == [];
    } else {
      RunSnoc(Apply(s, steps[0]), steps[1..], step);
      assert (steps + [step])[1..] == steps[1..] + [step];
    }
  }

  /** A legal run is a legal run but for its last step, and then that step. */
  lemma {:induction false} RunSplit(s: State, steps: seq<Step>)
    requires steps != [] && Legal(s, steps)
    ensures Legal(s, Front(steps)) && Enabled(Run(s, Front(steps)), Last(steps))
    ensures Run(s, steps) == Apply(Run(s, Front(steps)), Last(steps))
    decreases |steps|
  {
    if |steps| == 1 {
      assert steps[1..] == [] && Front(steps) == [];
    } else {
      RunSplit(Apply(s, steps[0]), steps[1..]);
      assert Front(steps[1..]) == Front(steps)[1..] && Last(steps[1..]) == Last(steps);
    }
  }

  // ---- attaching a decoder --------------------------------------------------------------

  /** Some step attaches a decoder and no later one detaches it. */
  ghost predicate AttachedIn(steps: seq<Step>) {
    exists i :: 0 <= i < |steps| && steps[i] == ByMain(Attach)
      && forall j :: i < j < |steps| ==> steps[j] != ByMain(Detach)
  }

  /** In every run a decoder is attached exactly when the last step that attached or detached one attached it. */
  lemma {:induction false} DecoderAttachedIff(s: State, steps: seq<Step>)
    requires Legal(s, steps)
    ensures Run(s, steps).decoder <==> AttachedIn(steps) || (s.decoder && ByMain(Detach) !in steps)
    decreases |steps|
  {
    if steps != [] {
      RunSplit(s, steps);
      var before, step := Run(s, Front(steps)), Last(steps);
      DecoderAttachedIff(s, Front(steps));
      assert steps == Front(steps) + [step];
      AttachedSnoc(Front(steps), step);
      DecoderStep(before, step);
    }
  }

  lemma DecoderStep(s: State, step: Step)
    requires Enabled(s, step)
    ensures Apply(s, step).decoder <==> step == ByMain(Attach) || (s.decoder && step != ByMain(Detach))
  {
  }

  lemma AttachedSnoc(steps: seq<Step>, step: Step)
    ensures AttachedIn(steps + [step]) <==> step == ByMain(Attach) || (AttachedIn(steps) && step != ByMain(Detach))
  {
    var all := steps + [step];
    assert all[|steps|] == step;
    if AttachedIn(all) {
      var i :| 0 <= i < |all| && all[i] == ByMain(Attach) && forall j :: i < j < |all| ==> all[j] != ByMain(Detach);
      if i < |steps| {
        assert steps[i] == all[i];
        assert forall j :: i < j < |steps| ==> steps[j] == all[j];
      }
    }
    if AttachedIn(steps) && step != ByMain(Detach) {
      var i :| 0 <= i < |steps| && steps[i] == ByMain(Attach) && forall j :: i < j < |steps| ==> steps[j] != ByMain(Detach);
      assert all[i] == ByMain(Attach);
      assert forall j :: i < j < |steps| ==> all[j] == steps[j];
    }
  }

  // ---- draining the overflow queue ------------------------------------------------------

  /** A drain of the capture loop that ends has emptied the queue, or there is no decoder, or decodeCh is full. */
  lemma DrainEndsWhen(s: State, steps: seq<Step>)
    requires Legal(s, steps) && steps != [] && Last(steps) == ByMain(EndDrain)
    ensures var t := Run(s, steps);
            t.queue.items == [] || !t.decoder || |t.ch.decode| >= DECODE_QUEUE_SIZE
  {
    RunSplit(s, steps);
  }

  ghost predicate Reaches(s: State, t: State) {
    exists steps :: Legal(s, steps) && Run(s, steps) == t
  }

  lemma ReachesSelf(s: State)
    ensures Reaches(s, s)
  {
    assert Legal(s, []) && Run(s, []) == s;
  }

  lemma ReachesNext(s: State, t: State, step: Step)
    requires Reaches(s, t) && Enabled(t, step)
    ensures Reaches(s, Apply(t, step))
  {
    var steps :| Legal(s, steps) && Run(s, steps) == t;
    RunSnoc(s, steps, step);
  }

  /** The state after a drain has sent the first `n` waiting packets. */
  function Drained(s: State, n: nat): State
    requires n <= |s.queue.items|
  {
    s.(queue := s.queue.(items := s.queue.items[n..]),
       ch := s.ch.(decode := s.ch.decode + s.queue.items[..n]),
       log := s.log.(sent := s.log.sent + s.queue.items[..n]))
  }

  /** Packets wait, a decoder is attached and decodeCh has room: as many as a drain sends. */
  function Sendable(s: State): (n: nat)
    ensures n <= |s.queue.items| && (n > 0 ==> |s.ch.decode| + n <= DECODE_QUEUE_SIZE)
  {
    var room := DECODE_QUEUE_SIZE - |s.ch.decode|;
    if !s.decoder || room <= 0 then 0 else if room < |s.queue.items| then room else |s.queue.items|
  }

  /**
   * With a decoder attached, a drain sends the packets waiting in the queue, oldest first,
   * until none waits or decodeCh is full, and changes nothing else; without one it sends none.
   */
  lemma DrainSends(s: State)
    requires s.main.Idle?
    ensures Reaches(s, Drained(s, Sendable(s)))
  {
    var n := Sendable(s);
    ReachesSelf(s);
    ReachesNext(s, s, ByMain(BeginDrain));
    var t := s.(main := Draining);
    SendsFirst(s, t, n);
    ReachesNext(s, Drained(t, n), ByMain(EndDrain));
    assert Apply(Drained(t, n), ByMain(EndDrain)) == Drained(s, n);
  }

  /** Attaching a decoder drains what waited for one. */
  lemma AttachDrains(s: State)
    requires s.main.Idle?
    ensures var u := s.(decoder := true); Reaches(s, Drained(u, Sendable(u)))
  {
    var u := s.(decoder := true);
    var n := Sendable(u);
    ReachesSelf(s);
    ReachesNext(s, s, ByMain(Attach));
    var t := u.(main := Draining);
    SendsFirst(s, t, n);
    ReachesNext(s, Drained(t, n), ByMain(EndDrain));
    assert Apply(Drained(t, n), ByMain(EndDrain)) == Drained(u, n);
  }

  /** A session that stops drains once more before it closes decodeCh. */
  lemma StopDrains(s: State)
    requires s.main.Idle?
    ensures var t := Drained(s, Sendable(s)); Reaches(s, t.(main := ShuttingDown, ch := t.ch.(decodeClosed := true)))
  {
    var n := Sendable(s);
    ReachesSelf(s);
    ReachesNext(s, s, ByMain(BeginStop));
    var t := s.(main := StopDraining);
    SendsFirst(s, t, n);
    ReachesNext(s, Drained(t, n), ByMain(EndStop));
    var u := Drained(s, n);
    assert Apply(Drained(t, n), ByMain(EndStop)) == u.(main := ShuttingDown, ch := u.ch.(decodeClosed := true));
  }

  /**
   * Live capture never waits for decoding: whatever state the worker, the queue and decodeCh are
   * in, with or without a decoder, the capture loop alone takes in the next packet and is idle again.
   */
  lemma CaptureNeverBlocks(s: State, pkt: Packet) returns (t: State)
    requires s.main.Idle? && !s.replay
    ensures Reaches(s, t) && t.main.Idle? && t.log.fed == s.log.fed + [pkt]
    ensures t.work == s.work && t.ch.decoded == s.ch.decoded && t.log.taken == s.log.taken
  {
    var n := Sendable(s);
    var feed := Apply(s, ByMain(Feed(pkt)));
    ReachesSelf(s);
    ReachesNext(s, s, ByMain(Feed(pkt)));
    SendsFirst(s, feed, n);
    var drained := Drained(feed, n);
    ReachesNext(s, drained, ByMain(EndDrain));
    var placing := Apply(drained, ByMain(EndDrain));
    t := Apply(placing, ByMain(Place));
    ReachesNext(s, placing, ByMain(Place));
  }

  /** A packet that the worker cannot submit, for want of a decoder or because it is refused, leaves nothing behind. */
  lemma UnsubmittedIsLetGo(s: State, step: Step)
    requires s.work.at.Submitting? && (step == ByWorker(SubmitFails) || (step == ByWorker(Skip) && !s.decoder))
    ensures Enabled(s, step) && Apply(s, step) == s.(work := Work(Receiving, s.work.window))
  {
  }

  lemma {:induction false} SendsFirst(s: State, t: State, n: nat)
    requires Reaches(s, t) && (t.main.Draining? || t.main.FeedDraining? || t.main.StopDraining?)
    requires n <= Sendable(t)
    ensures Reaches(s, Drained(t, n))
  {
    if n == 0 {
      assert Drained(t, 0) == t;
    } else {
      SendsFirst(s, t, n - 1);
      var u := Drained(t, n - 1);
      ReachesNext(s, u, ByMain(SendHead));
      assert t.queue.items[..n] == t.queue.items[..n - 1] + [t.queue.items[n - 1]];
      assert t.queue.items[n - 1..][1..] == t.queue.items[n..];
      assert Apply(u, ByMain(SendHead)) == Drained(t, n);
    }
  }

  // ---- feeding one packet ---------------------------------------------------------------

  /** `t` is a state while the packet fed in the idle state `s` is not placed yet. */
  predicate Feeding(s: State, pkt: Packet, t: State) {
    && (t.main == FeedDraining(pkt) || t.main == FeedPlacing(pkt))
    && t.decoder == s.decoder && t.queue.dropped == s.queue.dropped && t.queue.maxBytes == s.queue.maxBytes
    && t.log.sent + t.queue.items == s.log.sent + s.queue.items
    && t.log.fed == s.log.fed + [pkt]
    && (s.queue.items == [] ==> t.queue.items == [] && (Room(s) ==> Room(t)))
  }

  lemma {:induction false} FeedingStep(s: State, pkt: Packet, t: State, step: Step)
    requires Feeding(s, pkt, t) && Enabled(t, step) && step != ByMain(Place)
    ensures Feeding(s, pkt, Apply(t, step))
  {
    if step == ByMain(SendHead) {
      assert t.log.sent + t.queue.items == t.log.sent + [t.queue.items[0]] + t.queue.items[1..];
    }
  }

  lemma {:induction false} FeedingRun(s: State, pkt: Packet, t: State, steps: seq<Step>)
    requires Feeding(s, pkt, t) && Legal(t, steps) && ByMain(Place) !in steps
    ensures Feeding(s, pkt, Run(t, steps))
    decreases |steps|
  {
    if steps != [] {
      FeedingStep(s, pkt, t, steps[0]);
      FeedingRun(s, pkt, Apply(t, steps[0]), steps[1..]);
    }
  }

  /**
   * A packet fed live, whatever the worker does meanwhile: all that waited is still sent or
   * waiting, in order; the packet becomes the last one sent exactly when, at the time it is
   * placed, a decoder is attached, nothing waits and decodeCh has room; otherwise it joins the
   * end of the queue, which may shed its oldest packets.
   */
  lemma FedPacketIsSentIff(s: State, pkt: Packet, steps: seq<Step>)
    requires s.main.Idle? && !s.replay && ByMain(Place) !in steps
    requires Legal(s, [ByMain(Feed(pkt))] + steps + [ByMain(Place)])
    ensures Legal(s, [ByMain(Feed(pkt))] + steps)
    ensures var v, t := Run(s, [ByMain(Feed(pkt))] + steps), Run(s, [ByMain(Feed(pkt))] + steps + [ByMain(Place)]);
            && t.main.Idle? && v.decoder == s.decoder
            && v.log.sent + v.queue.items == s.log.sent + s.queue.items
            && (s.decoder && v.queue.items == [] && |v.ch.decode| < DECODE_QUEUE_SIZE ==>
                  t.log.sent == s.log.sent + s.queue.items + [pkt] && t.queue == v.queue)
            && (!s.decoder || v.queue.items != [] || |v.ch.decode| >= DECODE_QUEUE_SIZE ==>
                  t.log.sent == v.log.sent && t.queue == PendingQueue.Push(v.queue, pkt))
  {
    var feed := [ByMain(Feed(pkt))];
    var all := feed + steps + [ByMain(Place)];
    assert Front(all) == feed + steps && Last(all) == ByMain(Place);
    RunSplit(s, all);
    assert (feed + steps)[0] == ByMain(Feed(pkt)) && (feed + steps)[1..] == steps;
    FeedingRun(s, pkt, Apply(s, ByMain(Feed(pkt))), steps);
    assert s.log.sent + s.queue.items + [] == s.log.sent + s.queue.items;
    var v := Run(s, feed + steps);
    if v.queue.items == [] {
      assert v.log.sent + [] == v.log.sent;
    }
  }

  /** With a decoder, an empty queue and room in decodeCh a fed packet is the next one sent. */
  lemma FedPacketIsSent(s: State, pkt: Packet, steps: seq<Step>)
    requires s.main.Idle? && !s.replay && s.decoder && s.queue.items == [] && Room(s)
    requires ByMain(Place) !in steps && Legal(s, [ByMain(Feed(pkt))] + steps + [ByMain(Place)])
    ensures var t := Run(s, [ByMain(Feed(pkt))] + steps + [ByMain(Place)]);
            t.log.sent == s.log.sent + [pkt] && t.queue == s.queue
  {
    FedPacketIsSentIff(s, pkt, steps);
    FeedingRun(s, pkt, Apply(s, ByMain(Feed(pkt))), steps);
    assert ([ByMain(Feed(pkt))] + steps)[1..] == steps;
    var v := Run(s, [ByMain(Feed(pkt))] + steps);
    assert s.log.sent + [] == s.log.sent;
  }

  // ---- while the decoder keeps up -------------------------------------------------------

  /** Whenever a packet is fed a decoder is attached, and whenever one is placed decodeCh has room. */
  predicate KeepsUp(s: State, steps: seq<Step>)
    requires Legal(s, steps)
    decreases |steps|
  {
    steps != [] ==>
      && (steps[0].ByMain? && steps[0].m.Feed? ==> s.decoder)
      && (steps[0] == ByMain(Place) ==> |s.ch.decode| < DECODE_QUEUE_SIZE)
      && KeepsUp(Apply(s, steps[0]), steps[1..])
  }

  predicate Current(s: State) {
    && !s.replay && !s.main.Replaying? && s.queue.items == [] && s.queue.dropped == 0
    && s.log.sent + InHand(s) == s.log.fed
    && (InHand(s) != [] ==> s.decoder)
  }

  lemma {:induction false} CurrentStep(s: State, step: Step)
    requires Current(s) && Enabled(s, step)
    requires step.ByMain? && step.m.Feed? ==> s.decoder
    requires step == ByMain(Place) ==> Room(s)
    ensures Current(Apply(s, step))
  {
    assert s.log.sent + [] == s.log.sent;
  }

  lemma {:induction false} CurrentRun(s: State, steps: seq<Step>)
    requires Current(s) && Legal(s, steps) && KeepsUp(s, steps)
    ensures Current(Run(s, steps))
    decreases |steps|
  {
    if steps != [] {
      CurrentStep(s, steps[0]);
      CurrentRun(Apply(s, steps[0]), steps[1..]);
    }
  }

  /**
   * A live session in which a decoder is attached whenever a packet is fed and decodeCh has
   * room whenever one is placed: nothing ever waits or is dropped, and between feeds exactly
   * the fed packets have been sent, in order.
   */
  lemma EverythingFedIsSent(maxBytes: int, steps: seq<Step>)
    requires Legal(Init(false, maxBytes), steps) && KeepsUp(Init(false, maxBytes), steps)
    ensures var t := Run(Init(false, maxBytes), steps);
            && t.queue.items == [] && t.queue.dropped == 0 && t.log.sent + InHand(t) == t.log.fed
            && (t.main.Idle? ==> t.log.sent == t.log.fed)
  {
    CurrentRun(Init(false, maxBytes), steps);
    var t := Run(Init(false, maxBytes), steps);
    assert t.log.sent + [] == t.log.sent;
  }

  /** A cancelled replay gives up the packet it waits with, at any time, and nothing else is lost. */
  lemma ReplayCanBeCancelled(s: State)
    requires s.main.Replaying?
    ensures Enabled(s, ByMain(AbandonReplay))
    ensures var t := Apply(s, ByMain(AbandonReplay));
            && t.main.Idle? && t.log == s.log.(abandoned := s.log.abandoned + 1)
            && t.queue == s.queue && t.ch == s.ch && t.work == s.work
  {
  }

  // ---- a whole session ------------------------------------------------------------------

  /** Idle with a decoder; `fs` are all requests so far, and nothing is under way but the window. */
  ghost predicate Ready(t: State, fs: seq<Future>) {
    && Inv(t) && t.main.Idle? && t.decoder && t.work.at.Receiving?
    && t.queue.items == [] && t.ch == Channels([], false, [], false)
    && t.log.fed == Submitted(fs) && t.log.sent == Submitted(fs) && t.log.submitted == fs
  }

  /** One more packet is fed, sent, taken and submitted. */
  function Submits(t: State, f: Future): State
    requires t.main.Idle? && t.work.at.Receiving?
  {
    t.(work := Work(if |t.work.window| + 1 >= DECODE_WINDOW then Settling else Receiving, t.work.window + [f]),
       log := t.log.(fed := t.log.fed + [f.packet], sent := t.log.sent + [f.packet],
                     taken := t.log.taken + [f.packet], submitted := t.log.submitted + [f]))
  }

  lemma {:induction false} SendsOne(s: State, t: State, pkt: Packet) returns (t': State)
    requires Reaches(s, t) && t.main.Idle? && t.decoder && t.queue.items == [] && t.ch.decode == []
    ensures Reaches(s, t')
    ensures t' == t.(ch := t.ch.(decode := [pkt]), log := t.log.(fed := t.log.fed + [pkt], sent := t.log.sent + [pkt]))
  {
    var feed := ByMain(if t.replay then FeedReplay(pkt) else Feed(pkt));
    var t1 := Apply(t, feed);
    ReachesNext(s, t, feed);
    if t.replay {
      t' := Apply(t1, ByMain(SendReplay));
      ReachesNext(s, t1, ByMain(SendReplay));
    } else {
      var t2 := Apply(t1, ByMain(EndDrain));
      ReachesNext(s, t1, ByMain(EndDrain));
      t' := Apply(t2, ByMain(Place));
      ReachesNext(s, t2, ByMain(Place));
    }
    assert t'.ch.decode == [pkt];
  }

  lemma {:induction false} SubmitsOne(s: State, t: State, f: Future)
    requires Reaches(s, t) && t.main.Idle? && t.decoder && t.work.at.Receiving?
    requires t.queue.items == [] && t.ch == Channels([], false, [], false)
    ensures Reaches(s, Submits(t, f))
  {
    var t1 := SendsOne(s, t, f.packet);
    var t2 := Apply(t1, ByWorker(Take));
    ReachesNext(s, t1, ByWorker(Take));
    assert t2.ch.decode == [] && t2.work.at == Submitting(f.packet);
    ReachesNext(s, t2, ByWorker(Submit(f.outcome)));
    assert Apply(t2, ByWorker(Submit(f.outcome))) == Submits(t, f);
  }

  /** The oldest request has been waited for and its events processed. */
  function Settles(t: State): State
    requires t.work.window != []
  {
    t.(work := Work(if t.work.at.Closing? then Closing else Receiving, t.work.window[1..]),
       log := t.log.(processed := t.log.processed + ResultOf(t.work.window[0])))
  }

  lemma {:induction false} SettlesOne(s: State, t: State)
    requires Reaches(s, t) && (t.work.at.Settling? || t.work.at.Closing?) && t.work.window != []
    requires (t.main.Idle? || t.main.ShuttingDown?) && t.ch.decoded == []
    ensures Reaches(s, Settles(t))
  {
    var f := t.work.window[0];
    var t1 := Apply(t, ByWorker(WaitHead));
    ReachesNext(s, t, ByWorker(WaitHead));
    if t1.work.at.Delivering? {
      var t2 := Apply(t1, ByWorker(Deliver));
      ReachesNext(s, t1, ByWorker(Deliver));
      assert t2.ch.decoded == [f.outcome.value];
      ReachesNext(s, t2, ByMain(Collect));
      assert Apply(t2, ByMain(Collect)) == Settles(t);
    } else {
      assert ResultOf(f) == [];
      assert t.log.processed + [] == t.log.processed;
    }
  }

  lemma ReachesInv(s: State, t: State)
    requires Reaches(s, t) && Inv(s)
    ensures Inv(t)
  {
    var steps :| Legal(s, steps) && Run(s, steps) == t;
    RunKeepsInv(s, steps);
  }

  lemma {:induction false} ReadyForMore(s: State, t: State, fs: seq<Future>, f: Future) returns (t': State)
    requires Inv(s) && Reaches(s, t) && Ready(t, fs)
    ensures Reaches(s, t') && Ready(t', fs + [f])
  {
    SubmitsOne(s, t, f);
    t' := Submits(t, f);
    assert Front(fs + [f]) == fs;
    if t'.work.at.Settling? {
      SettlesOne(s, t');
      t' := Settles(t');
    }
    ReachesInv(s, t');
  }

  lemma {:induction false} ReadyForAll(s: State, fs: seq<Future>) returns (t: State)
    requires s == Init(s.replay, s.queue.maxBytes)
    ensures Reaches(s, t) && Ready(t, fs)
  {
    InitInv(s.replay, s.queue.maxBytes);
    if fs == [] {
      var t1 := Apply(s, ByMain(Attach));
      ReachesSelf(s);
      ReachesNext(s, s, ByMain(Attach));
      t := Apply(t1, ByMain(EndDrain));
      ReachesNext(s, t1, ByMain(EndDrain));
      ReachesInv(s, t);
    } else {
      var before := ReadyForAll(s, Front(fs));
      t := ReadyForMore(s, before, Front(fs), Last(fs));
      assert Front(fs) + [Last(fs)] == fs;
    }
  }

  lemma {:induction false} WindowDrains(s: State, t: State) returns (t': State)
    requires Reaches(s, t) && t.work.at.Closing? && t.main.ShuttingDown? && t.ch.decoded == []
    ensures Reaches(s, t') && t'.work == Work(Closing, [])
    ensures t' == t.(work := t'.work, log := t.log.(processed := t'.log.processed))
    decreases |t.work.window|
  {
    if t.work.window == [] {
      t' := t;
    } else {
      SettlesOne(s, t);
      t' := WindowDrains(s, Settles(t));
    }
  }

  /** The capture loop stops, closes decodeCh, and the worker sees it closed. */
  lemma {:induction false} Stops(s: State, t: State) returns (t': State)
    requires Reaches(s, t) && t.main.Idle? && t.work.at.Receiving? && t.ch == Channels([], false, [], false)
    ensures Reaches(s, t')
    ensures t' == t.(main := ShuttingDown, ch := Channels([], true, [], false), work := Work(Closing, t.work.window))
  {
    var t1 := Apply(t, ByMain(BeginStop));
    ReachesNext(s, t, ByMain(BeginStop));
    var t2 := Apply(t1, ByMain(EndStop));
    ReachesNext(s, t1, ByMain(EndStop));
    t' := Apply(t2, ByWorker(SeeClosed));
    ReachesNext(s, t2, ByWorker(SeeClosed));
  }

  lemma {:induction false} Finishes(s: State, t: State) returns (t': State)
    requires Reaches(s, t) && t.main.ShuttingDown? && t.work == Work(Closing, [])
    requires t.ch == Channels([], true, [], false)
    ensures Reaches(s, t') && t'.main.Finished? && t'.work == Work(Done, []) && t'.ch.decoded == []
    ensures t'.log == t.log
  {
    var t1 := Apply(t, ByWorker(CloseDecoded));
    ReachesNext(s, t, ByWorker(CloseDecoded));
    t' := Apply(t1, ByMain(Finish));
    ReachesNext(s, t1, ByMain(Finish));
  }

  lemma AllAccounted(t: State)
    requires Inv(t) && t.work == Work(Done, []) && t.ch.decoded == []
    ensures t.log.processed == Results(t.log.submitted)
  {
    assert t.log.processed + [] + [] + [] == t.log.processed;
    assert Contents([]) == [] && Results([]) == [];
  }

  lemma {:induction false} Ends(s: State, t: State) returns (t': State)
    requires Inv(s) && Reaches(s, t) && t.main.Idle? && t.work.at.Receiving?
    requires t.ch == Channels([], false, [], false)
    ensures Reaches(s, t') && t'.main.Finished?
    ensures t'.log == t.log.(processed := Results(t.log.submitted))
  {
    var t1 := Stops(s, t);
    var t2 := WindowDrains(s, t1);
    t' := Finishes(s, t2);
    assert Inv(t') by {
      ReachesInv(s, t');
    }
    AllAccounted(t');
  }

  /**
   * Whatever packets are captured or replayed and whatever decoding each of them gives, there
   * is a session that attaches a decoder, sends, takes and submits every packet in capture
   * order, processes all their events in that order and ends.
   */
  lemma SessionDecodesEverything(replay: bool, maxBytes: int, fs: seq<Future>)
    ensures exists steps :: Legal(Init(replay, maxBytes), steps) &&
              var end := Run(Init(replay, maxBytes), steps);
              && end.main.Finished? && end.log.submitted == fs && end.log.processed == Results(fs)
              && end.log.fed == Submitted(fs) && end.log.sent == Submitted(fs) && end.log.taken == Submitted(fs)
  {
    var s := Init(replay, maxBytes);
    InitInv(replay, maxBytes);
    var t := ReadyForAll(s, fs);
    var end := Ends(s, t);
    assert t.log.taken + [] == t.log.taken;
    assert t.log.sent == t.log.taken + t.ch.decode;
    var steps :| Legal(s, steps) && Run(s, steps) == end;
  }
}
