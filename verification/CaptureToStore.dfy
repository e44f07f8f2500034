/**
 * cmd/gt-pipeline/capture_task.go: the decode pipeline and the write buffers together. The
 * capture loop buffers every packet before it feeds it to the decoder, and buffers the events
 * of every batch it collects; flushes come in between and at the end.
 */
module CaptureToStore {
  import opened Seqs
  import opened Packets
  import D = DecodePipeline
  import W = WriteBuffers

  datatype State = State(dec: D.State, ses: W.Session)

  /**
   * `paths`: what projecting each event of a collected batch gives. `Skips`: a packet without
   * a transport protocol, which is buffered but not fed.
   */
  datatype Step = Pipeline(step: D.Step, paths: seq<Option<seq<string>>>) | Skips(pkt: Packet) | Flushes(o: W.Outcome)

  function Init(replay: bool, maxBytes: int): State {
    State(D.Init(replay, maxBytes), W.Start())
  }

  function Batch(s: State, step: D.Step): seq<Event>
    requires D.Enabled(s.dec, step)
  {
    if step == D.ByMain(D.Collect) then Present(s.dec.ch.decoded[0]) else []
  }

  predicate Enabled(s: State, step: Step) {
    match step
    case Pipeline(d, paths) => D.Enabled(s.dec, d) && |paths| == |Batch(s, d)|
    case Skips(_) => s.dec.main.Idle?
    case Flushes(_) => s.dec.main.Idle? || s.dec.main.Finished?
  }

  function Decodeds(events: seq<Event>, paths: seq<Option<seq<string>>>): seq<W.Decoded>
    requires |paths| == |events|
  {
    seq(|events|, i requires 0 <= i < |events| => W.Decoded(events[i], paths[i]))
  }

  /** What the capture loop does to its buffers in a step of the pipeline. */
  function Buffered(s: State, step: D.Step, paths: seq<Option<seq<string>>>): W.Session
    requires D.Enabled(s.dec, step) && |paths| == |Batch(s, step)|
  {
    match step
    case ByMain(Feed(pkt)) => W.Capture(s.ses, pkt)
    case ByMain(FeedReplay(pkt)) => W.Capture(s.ses, pkt)
    case _ => W.ProcessAll(s.ses, Decodeds(Batch(s, step), paths))
  }

  function Apply(s: State, step: Step): State
    requires Enabled(s, step)
  {
    match step
    case Pipeline(d, paths) => State(D.Apply(s.dec, d), Buffered(s, d, paths))
    case Skips(pkt) => s.(ses := W.Capture(s.ses, pkt))
    case Flushes(o) => s.(ses := W.Flush(s.ses, o))
  }

  predicate Legal(s: State, run: seq<Step>)
    decreases |run|
  {
    run == [] || (Enabled(s, run[0]) && Legal(Apply(s, run[0]), run[1..]))
  }

  function Run(s: State, run: seq<Step>): State
    requires Legal(s, run)
    decreases |run|
  {
    if run == [] then s else Run(Apply(s, run[0]), run[1..])
  }

  // ---- what every step keeps ----------------------------------------------------------

  /** The events produced are those processed, and every packet fed was buffered, in order. */
  ghost predicate Joined(dec: D.State, ses: W.Session) {
    ses.made.events == dec.log.processed && Subseq(dec.log.fed, ses.made.raws)
  }

  ghost predicate Inv(s: State) {
    D.Inv(s.dec) && W.Inv(s.ses) && Joined(s.dec, s.ses)
  }

  lemma Snoc<T>(a: seq<T>, b: seq<T>)
    requires b != []
    ensures a + b == a + Front(b) + [Last(b)]
  {
  }

  lemma {:induction false} ProcessKeeps(ses: W.Session, d: W.Decoded)
    requires W.Inv(ses)
    ensures var t := W.Process(ses, d);
            W.Inv(t) && t.made.events == ses.made.events + [d.event] && t.made.raws == ses.made.raws
  {
    W.ApplyInv(ses, W.OnEvent(d));
    assert W.Apply(ses, W.OnEvent(d)) == W.Process(ses, d);
  }

  lemma {:induction false} ProcessesAll(ses: W.Session, evs: seq<W.Decoded>, events: seq<Event>)
    requires W.Inv(ses) && |evs| == |events| && forall i | 0 <= i < |evs| :: evs[i].event == events[i]
    ensures var t := W.ProcessAll(ses, evs);
            W.Inv(t) && t.made.events == ses.made.events + events && t.made.raws == ses.made.raws
  {
    if evs == [] {
      assert ses.made.events + events == ses.made.events;
    } else {
      ProcessesAll(ses, Front(evs), Front(events));
      ProcessKeeps(W.ProcessAll(ses, Front(evs)), Last(evs));
      Snoc(ses.made.events, events);
    }
  }

  lemma {:induction false} CapturesOne(fed: seq<Packet>, ses: W.Session, pkt: Packet)
    requires W.Inv(ses) && Subseq(fed, ses.made.raws)
    ensures var t := W.Capture(ses, pkt);
            && W.Inv(t) && t.made.events == ses.made.events
            && Subseq(fed, t.made.raws) && Subseq(fed + [pkt], t.made.raws)
  {
    W.ApplyInv(ses, W.OnPacket(pkt));
    SubseqExtend(fed, ses.made.raws, pkt);
  }

  lemma {:induction false} LogGrows(dec: D.State, step: D.Step)
    requires D.Enabled(dec, step)
    ensures var t := D.Apply(dec, step);
            && t.log.fed == (match step
                             case ByMain(Feed(pkt)) => dec.log.fed + [pkt]
                             case ByMain(FeedReplay(pkt)) => dec.log.fed + [pkt]
                             case _ => dec.log.fed)
            && t.log.processed == dec.log.processed + if step == D.ByMain(D.Collect) then Present(dec.ch.decoded[0]) else []
  {
    assert dec.log.processed + [] == dec.log.processed;
  }

  lemma {:induction false} PipelineKeeps(s: State, step: D.Step, paths: seq<Option<seq<string>>>)
    requires Inv(s) && D.Enabled(s.dec, step) && |paths| == |Batch(s, step)|
    ensures W.Inv(Buffered(s, step, paths)) && Joined(D.Apply(s.dec, step), Buffered(s, step, paths))
  {
    LogGrows(s.dec, step);
    match step
    case ByMain(Feed(pkt)) => CapturesOne(s.dec.log.fed, s.ses, pkt);
    case ByMain(FeedReplay(pkt)) => CapturesOne(s.dec.log.fed, s.ses, pkt);
    case _ => ProcessesAll(s.ses, Decodeds(Batch(s, step), paths), Batch(s, step));
  }

  lemma {:induction false} StepKeeps(s: State, step: Step)
    requires Inv(s) && Enabled(s, step)
    ensures Inv(Apply(s, step))
  {
    match step
    case Pipeline(d, paths) =>
      PipelineKeeps(s, d, paths);
      match d {
        case ByMain(m) => D.MainKeepsInv(s.dec, m);
        case ByWorker(w) => D.WorkerKeepsInv(s.dec, w);
      }
    case Skips(pkt) => CapturesOne(s.dec.log.fed, s.ses, pkt);
    case Flushes(o) => W.ApplyInv(s.ses, W.OnFlush(o));
  }

  lemma {:induction false} RunKeeps(s: State, run: seq<Step>)
    requires Inv(s) && Legal(s, run)
    ensures Inv(Run(s, run))
    decreases |run|
  {
    if run != [] {
      StepKeeps(s, run[0]);
      RunKeeps(Apply(s, run[0]), run[1..]);
    }
  }

  lemma ReachesInv(replay: bool, maxBytes: int, run: seq<Step>)
    requires Legal(Init(replay, maxBytes), run)
    ensures Inv(Run(Init(replay, maxBytes), run))
  {
    D.InitInv(replay, maxBytes);
    assert W.Inv(W.Start()) by {
      W.RunInv([]);
    }
    RunKeeps(Init(replay, maxBytes), run);
  }

  // ---- from capture to store ----------------------------------------------------------

  /** Submission order is capture order. */
  lemma {:induction false} SubmittedWereFed(d: D.State)
    requires D.Inv(d)
    ensures Subseq(D.Submitted(d.log.submitted), d.log.fed)
  {
    if d.work.at.Submitting? {
      D.HandInOrder(d.log.submitted, d.log.taken, d.work.at, D.Future(d.work.at.pkt, None));
    }
    var rest := d.ch.decode + d.queue.items + D.InHand(d);
    assert d.log.taken + rest == d.log.sent + d.queue.items + D.InHand(d);
    PrefixSubseq(D.Submitted(d.log.submitted), d.log.taken, rest, d.log.fed);
  }

  lemma {:induction false} PrefixKeeps<T>(a: seq<T>, b: seq<T>, c: seq<T>)
    requires Subseq(a, b) && b <= c
    ensures Subseq(a, c)
  {
    assert c == b + c[|b|..];
    PrefixIsSubseq(b, c[|b|..]);
    SubseqTransitive(a, b, c);
  }

  /**
   * From capture to store, for every interleaving, every write failure and every loss of a
   * decoder: the packets submitted for decoding are buffered packets, in capture order, and the
   * stored events followed by the buffered ones are the per-packet results in that order, less
   * those still under way at the end and those counted as overflow.
   */
  lemma StoredInCaptureOrder(replay: bool, maxBytes: int, run: seq<Step>)
    requires Legal(Init(replay, maxBytes), run)
    ensures var s := Run(Init(replay, maxBytes), run);
            var results := D.Results(s.dec.log.submitted);
            && Subseq(D.Submitted(s.dec.log.submitted), s.ses.made.raws)
            && Subseq(s.ses.store.raws + s.ses.buf.raws, s.ses.made.raws)
            && Subseq(s.ses.store.events + s.ses.buf.events, results)
            && s.dec.log.processed <= results
            && |s.ses.store.events| + |s.ses.buf.events| + s.ses.lost.events == |s.dec.log.processed|
  {
    ReachesInv(replay, maxBytes, run);
    var s := Run(Init(replay, maxBytes), run);
    SubmittedWereFed(s.dec);
    SubseqTransitive(D.Submitted(s.dec.log.submitted), s.dec.log.fed, s.ses.made.raws);
    PrefixKeeps(s.ses.store.events + s.ses.buf.events, s.dec.log.processed, D.Results(s.dec.log.submitted));
  }

  // ---- what a run produces ------------------------------------------------------------

  function CapturedIn(step: Step): seq<Packet> {
    match step
    case Pipeline(ByMain(Feed(pkt)), _) => [pkt]
    case Pipeline(ByMain(FeedReplay(pkt)), _) => [pkt]
    case Skips(pkt) => [pkt]
    case _ => []
  }

  function ProjectedIn(step: Step): seq<Option<seq<string>>> {
    if step.Pipeline? then step.paths else []
  }

  /** The packets a run captures, in order. */
  function Captured(run: seq<Step>): seq<Packet> {
    if run == [] then [] else CapturedIn(run[0]) + Captured(run[1..])
  }

  /** What projecting the collected events of a run gave, in order. */
  function Projected(run: seq<Step>): seq<Option<seq<string>>> {
    if run == [] then [] else ProjectedIn(run[0]) + Projected(run[1..])
  }

  function ChangesOfAll(events: seq<Event>, paths: seq<Option<seq<string>>>): seq<W.Change>
    requires |paths| == |events|
  {
    if events == [] then
      []
    else
      ChangesOfAll(Front(events), Front(paths)) + W.ChangesOf(W.Decoded(Last(events), Last(paths)))
  }

  /** Everything produced so far are these events, projected as `paths` says. */
  predicate Holds(made: W.Tables, events: seq<Event>, paths: seq<Option<seq<string>>>) {
    made.events == events && |paths| == |events| && made.changes == ChangesOfAll(events, paths)
  }

  /** The events and changes produced so far are those of the events processed, projected as `paths` says. */
  predicate Produced(s: State, raws: seq<Packet>, paths: seq<Option<seq<string>>>) {
    s.ses.made.raws == raws && Holds(s.ses.made, s.dec.log.processed, paths)
  }

  lemma ProcessesOne(ses: W.Session, events: seq<Event>, paths: seq<Option<seq<string>>>, d: W.Decoded)
    requires Holds(ses.made, events, paths)
    ensures W.Process(ses, d).made.raws == ses.made.raws
    ensures Holds(W.Process(ses, d).made, events + [d.event], paths + [d.paths])
  {
    assert Front(events + [d.event]) == events && Front(paths + [d.paths]) == paths;
  }

  lemma {:induction false} ProcessesInOrder(ses: W.Session, before: seq<Event>, was: seq<Option<seq<string>>>, ds: seq<W.Decoded>,
                                            events: seq<Event>, paths: seq<Option<seq<string>>>)
    requires Holds(ses.made, before, was)
    requires |paths| == |events| && ds == Decodeds(events, paths)
    ensures W.ProcessAll(ses, ds).made.raws == ses.made.raws
    ensures Holds(W.ProcessAll(ses, ds).made, before + events, was + paths)
    decreases |events|
  {
    if ds == [] {
      assert before + events == before && was + paths == was;
    } else {
      assert Front(ds) == Decodeds(Front(events), Front(paths));
      ProcessesInOrder(ses, before, was, Front(ds), Front(events), Front(paths));
      Snoc(before, events);
      Snoc(was, paths);
      var t := W.ProcessAll(ses, Front(ds));
      assert Last(ds) == W.Decoded(Last(events), Last(paths));
      ProcessesOne(t, before + Front(events), was + Front(paths), Last(ds));
      assert W.ProcessAll(ses, ds) == W.Process(t, Last(ds));
    }
  }

  lemma {:induction false} PipelineProduces(s: State, d: D.Step, ps: seq<Option<seq<string>>>, raws: seq<Packet>, paths: seq<Option<seq<string>>>)
    requires Produced(s, raws, paths) && D.Enabled(s.dec, d) && |ps| == |Batch(s, d)|
    ensures Produced(State(D.Apply(s.dec, d), Buffered(s, d, ps)), raws + CapturedIn(Pipeline(d, ps)), paths + ps)
  {
    LogGrows(s.dec, d);
    assert raws + [] == raws && paths + [] == paths;
    match d
    case ByMain(Feed(pkt)) =>
    case ByMain(FeedReplay(pkt)) =>
    case _ => ProcessesInOrder(s.ses, s.dec.log.processed, paths, Decodeds(Batch(s, d), ps), Batch(s, d), ps);
  }

  lemma {:induction false} StepProduces(s: State, step: Step, raws: seq<Packet>, paths: seq<Option<seq<string>>>)
    requires Produced(s, raws, paths) && Enabled(s, step)
    ensures Produced(Apply(s, step), raws + CapturedIn(step), paths + ProjectedIn(step))
  {
    match step
    case Pipeline(d, ps) => PipelineProduces(s, d, ps, raws, paths);
    case Skips(pkt) => assert paths + [] == paths;
    case Flushes(o) => assert W.Flush(s.ses, o).made == s.ses.made && raws + [] == raws && paths + [] == paths;
  }

  lemma {:induction false} RunProduces(s: State, run: seq<Step>, raws: seq<Packet>, paths: seq<Option<seq<string>>>)
    requires Produced(s, raws, paths) && Legal(s, run)
    ensures Produced(Run(s, run), raws + Captured(run), paths + Projected(run))
    decreases |run|
  {
    if run == [] {
      assert raws + [] == raws && paths + [] == paths;
    } else {
      StepProduces(s, run[0], raws, paths);
      RunProduces(Apply(s, run[0]), run[1..], raws + CapturedIn(run[0]), paths + ProjectedIn(run[0]));
      Associates(raws, CapturedIn(run[0]), Captured(run[1..]));
      Associates(paths, ProjectedIn(run[0]), Projected(run[1..]));
    }
  }

  lemma StartsEmpty(replay: bool, maxBytes: int)
    ensures Produced(Init(replay, maxBytes), [], [])
  {
  }

  /**
   * What a run produces for the store: exactly the packets captured, whether or not they were
   * decoded, the events processed, and the projections of each of these events, all in order.
   */
  lemma ProducedIsExact(replay: bool, maxBytes: int, run: seq<Step>)
    requires Legal(Init(replay, maxBytes), run)
    ensures var s := Run(Init(replay, maxBytes), run);
            && s.ses.made.raws == Captured(run) && s.ses.made.events == s.dec.log.processed
            && |Projected(run)| == |s.dec.log.processed|
            && s.ses.made.changes == ChangesOfAll(s.dec.log.processed, Projected(run))
  {
    StartsEmpty(replay, maxBytes);
    RunProduces(Init(replay, maxBytes), run, [], []);
    assert Produced(Run(Init(replay, maxBytes), run), Captured(run), Projected(run)) by {
      assert [] + Captured(run) == Captured(run) && [] + Projected(run) == Projected(run);
    }
  }

  /**
   * A session that has ended, with no overflow counted and its last flush written, has stored
   * exactly every captured packet and the events of all submitted packets, in capture order;
   * and, if the projections were written too and none overflowed, every event's projections.
   */
  lemma EndedSessionIsStored(replay: bool, maxBytes: int, run: seq<Step>, o: W.Outcome)
    requires Legal(Init(replay, maxBytes), run)
    requires var s := Run(Init(replay, maxBytes), run);
             s.dec.main.Finished? && s.ses.lost.raws == 0 && s.ses.lost.events == 0 && o.raws && o.events
    ensures var s := Run(Init(replay, maxBytes), run);
            && Enabled(s, Flushes(o))
            && var t := Apply(s, Flushes(o));
               && t.ses.store.events == D.Results(t.dec.log.submitted) && t.ses.buf.events == []
               && t.ses.store.raws == Captured(run) && t.ses.buf.raws == []
               && (o.changes && s.ses.lost.changes == 0 ==>
                     && |Projected(run)| == |t.ses.store.events| && t.ses.buf.changes == []
                     && t.ses.store.changes == ChangesOfAll(t.ses.store.events, Projected(run)))
  {
    ReachesInv(replay, maxBytes, run);
    ProducedIsExact(replay, maxBytes, run);
    var s := Run(Init(replay, maxBytes), run);
    AllProcessed(s.dec);
    FinalFlush(s.ses, o);
  }

  lemma {:induction false} AllProcessed(d: D.State)
    requires D.Inv(d) && d.main.Finished?
    ensures d.log.processed == D.Results(d.log.submitted)
  {
    assert D.Contents([]) == [] && D.Results([]) == [];
    assert d.log.processed + [] + [] + [] == d.log.processed;
  }

  lemma {:induction false} FinalFlush(ses: W.Session, o: W.Outcome)
    requires W.Inv(ses) && ses.lost.raws == 0 && ses.lost.events == 0 && o.raws && o.events
    ensures var t := W.Flush(ses, o);
            && t.store.raws == ses.made.raws && t.buf.raws == []
            && t.store.events == ses.made.events && t.buf.events == []
            && (o.changes && ses.lost.changes == 0 ==> t.store.changes == ses.made.changes && t.buf.changes == [])
  {
    SubseqLength(ses.store.events + ses.buf.events, ses.made.events);
    SubseqLength(ses.store.raws + ses.buf.raws, ses.made.raws);
    if ses.lost.changes == 0 {
      SubseqLength(ses.store.changes + ses.buf.changes, ses.made.changes);
    }
    assert ses.store.events + [] == ses.store.events && ses.store.raws + [] == ses.store.raws
           && ses.store.changes + [] == ses.store.changes;
  }
}
