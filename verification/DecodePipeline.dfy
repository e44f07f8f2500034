/**
 * cmd/gt-pipeline/capture_task.go, closures of `run`: the capture loop ("main") and the
 * decode worker share the bounded channels decodeCh and decodedCh; packets that do not
 * fit wait in the overflow queue; up to DECODE_WINDOW decode requests are in flight.
 *
 * The two goroutines are one state machine: a step is one channel operation or one
 * piece of code between two of them, and any enabled step may come next.
 */
module DecodePipeline {
  import opened Seqs
  import opened Packets
  import PendingQueue

  type Queue = PendingQueue.Queue

  const DECODE_QUEUE_SIZE := 1024
  const DECODED_QUEUE_SIZE := 64
  const DECODE_WINDOW := 16

  /** An in-flight decode request. `outcome` is what waiting for it yields; None is an error. */
  datatype Future = Future(packet: Packet, outcome: Option<Batch>)

  datatype Main =
    | Idle                       // at the select of the capture loop
    | FeedDraining(pkt: Packet)  // feedDecode, in its drainPending call
    | FeedPlacing(pkt: Packet)   // feedDecode, after drainPending returned
    | Draining                   // drainPending called from the loop
    | Replaying(pkt: Packet)     // pcap replay, waiting until pkt is sent
    | StopDraining               // drainPendingBlocking
    | ShuttingDown               // shutdownDecode, decodeCh is closed
    | Finished

  datatype Worker =
    | Receiving                            // at `range decodeCh`
    | Submitting(pkt: Packet)
    | Settling                             // the window is full: wait for its head
    | Delivering(batch: Batch, closing: bool)
    | Closing                              // decodeCh is closed and empty
    | Done

  /** decodeCh (capture to worker) and decodedCh (worker to post-processing). */
  datatype Channels = Channels(
    decode: seq<Packet>, decodeClosed: bool, decoded: seq<Batch>, decodedClosed: bool)

  /** The worker: where it is, and its in-flight requests, oldest first. */
  datatype Work = Work(at: Worker, window: seq<Future>)

  /** What has happened so far. */
  datatype Log = Log(
    fed: seq<Packet>,        // packets given to the decode side, in capture order
    abandoned: nat,          // replayed packets given up on because the session was cancelled
    sent: seq<Packet>,       // packets ever put into decodeCh
    taken: seq<Packet>,      // packets the worker received
    submitted: seq<Future>,  // requests the decoder accepted
    processed: seq<Event>)   // events handed to post-processing

  datatype State = State(
    replay: bool,            // pcap replay instead of live capture
    main: Main,
    decoder: bool,           // a dispatcher is attached
    queue: Queue,            // the overflow queue
    ch: Channels,
    work: Work,
    log: Log)

  function Init(replay: bool, maxBytes: int): State {
    State(replay, Idle, false, PendingQueue.Queue([], maxBytes, 0), Channels([], false, [], false),
          Work(Receiving, []), Log([], 0, [], [], [], []))
  }

  datatype MainStep =
    | Feed(pkt: Packet) | FeedReplay(pkt: Packet) | Attach | Detach | BeginDrain | BeginStop
    | SendHead | EndDrain | Place | SendReplay | AbandonReplay | Collect | EndStop | Finish

  datatype WorkerStep =
    | Take | Skip | SubmitFails | Submit(outcome: Option<Batch>) | WaitHead | Deliver
    | SeeClosed | CloseDecoded

  datatype Step = ByMain(m: MainStep) | ByWorker(w: WorkerStep)

  predicate Room(s: State) {
    |s.ch.decode| < DECODE_QUEUE_SIZE
  }

  /** drainPending goes on while a packet waits, a decoder is attached and decodeCh has room. */
  predicate CanDrain(s: State) {
    s.queue.items != [] && s.decoder && Room(s)
  }

  predicate MainEnabled(s: State, step: MainStep) {
    match step
    case Feed(_) => s.main.Idle? && !s.replay
    case FeedReplay(_) => s.main.Idle? && s.replay
    case Attach => s.main.Idle?
    case Detach => s.main.Idle?
    case BeginDrain => s.main.Idle?
    case BeginStop => s.main.Idle?
    case SendHead => (s.main.FeedDraining? || s.main.Draining? || s.main.StopDraining?) && CanDrain(s)
    case EndDrain => (s.main.FeedDraining? || s.main.Draining?) && !CanDrain(s)
    case Place => s.main.FeedPlacing?
    case SendReplay => s.main.Replaying? && Room(s)
    case AbandonReplay => s.main.Replaying?
    case Collect =>
      (s.main.Idle? || s.main.Replaying? || s.main.StopDraining? || s.main.ShuttingDown?)
      && s.ch.decoded != []
    case EndStop => s.main.StopDraining?
    case Finish => s.main.ShuttingDown? && s.ch.decoded == [] && s.ch.decodedClosed
  }

  /** The dispatcher the worker submits to may have been detached since it was loaded. */
  predicate WorkerEnabled(s: State, step: WorkerStep) {
    match step
    case Take => s.work.at.Receiving? && s.ch.decode != []
    case Skip => s.work.at.Submitting? && !s.decoder
    case SubmitFails => s.work.at.Submitting?
    case Submit(_) => s.work.at.Submitting?
    case WaitHead => (s.work.at.Settling? || s.work.at.Closing?) && s.work.window != []
    case Deliver => s.work.at.Delivering? && |s.ch.decoded| < DECODED_QUEUE_SIZE
    case SeeClosed => s.work.at.Receiving? && s.ch.decode == [] && s.ch.decodeClosed
    case CloseDecoded => s.work.at.Closing? && s.work.window == []
  }

  function Sent(s: State, pkt: Packet): State {
    s.(ch := s.ch.(decode := s.ch.decode + [pkt]), log := s.log.(sent := s.log.sent + [pkt]))
  }

  function MainApply(s: State, step: MainStep): State
    requires MainEnabled(s, step)
  {
    match step
    case Feed(pkt) => s.(main := FeedDraining(pkt), log := s.log.(fed := s.log.fed + [pkt]))
    case FeedReplay(pkt) => s.(main := Replaying(pkt), log := s.log.(fed := s.log.fed + [pkt]))
    case Attach => s.(decoder := true, main := Draining)
    case Detach => s.(decoder := false)
    case BeginDrain => s.(main := Draining)
    case BeginStop => s.(main := StopDraining)
    case SendHead => Sent(s, s.queue.items[0]).(queue := PendingQueue.PopHead(s.queue))
    case EndDrain => s.(main := if s.main.Draining? then Idle else FeedPlacing(s.main.pkt))
    case Place =>
      if !s.decoder || s.queue.items != [] || !Room(s) then
        s.(main := Idle, queue := PendingQueue.Push(s.queue, s.main.pkt))
      else
        Sent(s, s.main.pkt).(main := Idle)
    case SendReplay =>
      if s.queue.items != [] then
        Sent(s, s.queue.items[0]).(queue := PendingQueue.PopHead(s.queue))
      else
        Sent(s, s.main.pkt).(main := Idle)
    case AbandonReplay => s.(main := Idle, log := s.log.(abandoned := s.log.abandoned + 1))
    case Collect =>
      s.(ch := s.ch.(decoded := s.ch.decoded[1..]),
         log := s.log.(processed := s.log.processed + Present(s.ch.decoded[0])))
    case EndStop => s.(main := ShuttingDown, ch := s.ch.(decodeClosed := true))
    case Finish => s.(main := Finished)
  }

  function WorkerApply(s: State, step: WorkerStep): State
    requires WorkerEnabled(s, step)
  {
    match step
    case Take =>
      s.(work := s.work.(at := Submitting(s.ch.decode[0])),
         ch := s.ch.(decode := s.ch.decode[1..]),
         log := s.log.(taken := s.log.taken + [s.ch.decode[0]]))
    case Skip => s.(work := s.work.(at := Receiving))
    case SubmitFails => s.(work := s.work.(at := Receiving))
    case Submit(outcome) =>
      var f := Future(s.work.at.pkt, outcome);
      s.(work := Work(if |s.work.window| + 1 >= DECODE_WINDOW then Settling else Receiving,
                      s.work.window + [f]),
         log := s.log.(submitted := s.log.submitted + [f]))
    case WaitHead =>
      var f := s.work.window[0];
      s.(work := Work(if f.outcome.Some? && f.outcome.value != []
                      then Delivering(f.outcome.value, s.work.at.Closing?)
                      else if s.work.at.Closing? then Closing else Receiving,
                      s.work.window[1..]))
    case Deliver =>
      s.(ch := s.ch.(decoded := s.ch.decoded + [s.work.at.batch]),
         work := s.work.(at := if s.work.at.closing then Closing else Receiving))
    case SeeClosed => s.(work := s.work.(at := Closing))
    case CloseDecoded => s.(work := s.work.(at := Done), ch := s.ch.(decodedClosed := true))
  }

  predicate Enabled(s: State, step: Step) {
    match step
    case ByMain(m) => MainEnabled(s, m)
    case ByWorker(w) => WorkerEnabled(s, w)
  }

  function Apply(s: State, step: Step): State
    requires Enabled(s, step)
  {
    match step
    case ByMain(m) => MainApply(s, m)
    case ByWorker(w) => WorkerApply(s, w)
  }

  /** `steps` can be taken one after the other from `s`. */
  predicate Legal(s: State, steps: seq<Step>)
    decreases |steps|
  {
    steps == [] || (Enabled(s, steps[0]) && Legal(Apply(s, steps[0]), steps[1..]))
  }

  function Run(s: State, steps: seq<Step>): State
    requires Legal(s, steps)
    decreases |steps|
  {
    if steps == [] then s else Run(Apply(s, steps[0]), steps[1..])
  }

  // ---- capture order and conservation -------------------------------------------------

  /** The packet main is still placing: fed, but not yet sent, queued or given up. */
  function InHand(s: State): seq<Packet> {
    match s.main
    case FeedDraining(pkt) => [pkt]
    case FeedPlacing(pkt) => [pkt]
    case Replaying(pkt) => [pkt]
    case _ => []
  }

  ghost predicate InOrder(log: Log, queue: Queue, inHand: seq<Packet>) {
    Subseq(log.sent + queue.items + inHand, log.fed)
  }

  predicate Counted(s: State) {
    && |s.log.fed| == |s.log.sent| + |s.queue.items| + |InHand(s)| + s.queue.dropped + s.log.abandoned
    && (s.replay ==> s.queue.items == [] && s.queue.dropped == 0)
    && (!s.replay ==> s.log.abandoned == 0 && !s.main.Replaying?)
    && (s.replay ==> !s.main.FeedDraining? && !s.main.FeedPlacing?)
  }

  /** Shedding the head of a queue that is part of a subsequence keeps a subsequence. */
  lemma {:induction false} ShedKeepsOrder(sent: seq<Packet>, queue: seq<Packet>, maxBytes: int, fed: seq<Packet>)
    requires Subseq(sent + queue, fed)
    ensures Subseq(sent + PendingQueue.Shed(queue, maxBytes), fed)
  {
    if PendingQueue.RawBytes(queue) > maxBytes && |queue| > 1 {
      assert sent + [queue[0]] + queue[1..] == sent + queue;
      SubseqOmit(sent, queue[0], queue[1..], fed);
      ShedKeepsOrder(sent, queue[1..], maxBytes, fed);
    }
  }

  lemma {:induction false} CountStep(s: State, step: MainStep)
    requires Counted(s) && MainEnabled(s, step)
    ensures Counted(MainApply(s, step))
  {
  }

  lemma {:induction false} OrderStep(s: State, step: MainStep)
    requires InOrder(s.log, s.queue, InHand(s)) && MainEnabled(s, step)
    ensures var s' := MainApply(s, step); InOrder(s'.log, s'.queue, InHand(s'))
  {
    var s' := MainApply(s, step);
    var before := s.log.sent + s.queue.items;
    var after := s'.log.sent + s'.queue.items;
    assert before + [] == before && after + [] == after;
    if step.Feed? || step.FeedReplay? {
      SubseqExtend(before, s.log.fed, step.pkt);
    } else if step.AbandonReplay? {
      assert before + [s.main.pkt] + [] == before + InHand(s);
      SubseqOmit(before, s.main.pkt, [], s.log.fed);
    } else if step.Place? && s'.queue != s.queue {
      assert s.log.sent + (s.queue.items + [s.main.pkt]) == before + InHand(s);
      ShedKeepsOrder(s.log.sent, s.queue.items + [s.main.pkt], s.queue.maxBytes, s.log.fed);
    } else {
      assert after + InHand(s') == before + InHand(s);
    }
  }

  // ---- channels and window ------------------------------------------------------------

  predicate ChannelInv(s: State) {
    && s.log.sent == s.log.taken + s.ch.decode
    && |s.ch.decode| <= DECODE_QUEUE_SIZE
    && |s.ch.decoded| <= DECODED_QUEUE_SIZE
    && |s.work.window| <= DECODE_WINDOW
    && (s.work.at.Settling? <==> |s.work.window| == DECODE_WINDOW)
    && (s.ch.decodeClosed <==> s.main.ShuttingDown? || s.main.Finished?)
    && (s.work.at.Closing? || s.work.at.Done? ==> s.ch.decodeClosed && s.ch.decode == [])
    && (s.work.at.Delivering? && s.work.at.closing ==> s.ch.decodeClosed && s.ch.decode == [])
    && (s.ch.decodedClosed <==> s.work.at.Done?)
    && (s.work.at.Done? ==> s.work.window == [])
    && (s.main.Finished? ==> s.work.at.Done? && s.ch.decoded == [])
  }

  lemma {:induction false} ChannelMainStep(s: State, step: MainStep)
    requires ChannelInv(s) && MainEnabled(s, step)
    ensures ChannelInv(MainApply(s, step))
  {
  }

  lemma {:induction false} ChannelWorkerStep(s: State, step: WorkerStep)
    requires ChannelInv(s) && WorkerEnabled(s, step)
    ensures ChannelInv(WorkerApply(s, step))
  {
  }

  // ---- results ------------------------------------------------------------------------

  /** The events one settled request contributes. */
  function ResultOf(f: Future): seq<Event> {
    if f.outcome.Some? then Present(f.outcome.value) else []
  }

  /** The per-packet results, concatenated in submission order. */
  function Results(fs: seq<Future>): seq<Event> {
    if fs == [] then [] else Results(Front(fs)) + ResultOf(Last(fs))
  }

  function Contents(ch: seq<Batch>): seq<Event> {
    if ch == [] then [] else Contents(Front(ch)) + Present(Last(ch))
  }

  lemma {:induction false} ResultsHead(fs: seq<Future>)
    requires fs != []
    ensures Results(fs) == ResultOf(fs[0]) + Results(fs[1..])
  {
    if |fs| == 1 {
      assert Front(fs) == [] && fs[1..] == [];
    } else {
      ResultsHead(Front(fs));
      assert Front(fs)[1..] == Front(fs[1..]) && Last(fs) == Last(fs[1..]);
      assert Results(fs) == ResultOf(fs[0]) + Results(Front(fs[1..])) + ResultOf(Last(fs));
    }
  }

  lemma {:induction false} ContentsHead(ch: seq<Batch>)
    requires ch != []
    ensures Contents(ch) == Present(ch[0]) + Contents(ch[1..])
  {
    if |ch| == 1 {
      assert Front(ch) == [];
    } else {
      ContentsHead(Front(ch));
      assert Front(ch)[1..] == Front(ch[1..]);
    }
  }

  function Submitted(fs: seq<Future>): seq<Packet> {
    if fs == [] then [] else Submitted(Front(fs)) + [Last(fs).packet]
  }

  function BeingDelivered(w: Worker): seq<Event> {
    if w.Delivering? then Present(w.batch) else []
  }

  /** Submitted results are processed, decoded and waiting, being delivered, or in flight, in this order. */
  predicate Accounted(submitted: seq<Future>, processed: seq<Event>, decoded: seq<Batch>, work: Work) {
    Results(submitted) == processed + Contents(decoded) + BeingDelivered(work.at) + Results(work.window)
  }

  ghost predicate TakenInOrder(submitted: seq<Future>, taken: seq<Packet>, at: Worker) {
    if at.Submitting? then
      taken != [] && at.pkt == Last(taken) && Subseq(Submitted(submitted), Front(taken))
    else
      Subseq(Submitted(submitted), taken)
  }

  ghost predicate ResultInv(s: State) {
    && Accounted(s.log.submitted, s.log.processed, s.ch.decoded, s.work)
    && TakenInOrder(s.log.submitted, s.log.taken, s.work.at)
  }

  lemma {:induction false} CollectAccounts(sub: seq<Future>, done: seq<Event>, ch: seq<Batch>, w: Work)
    requires ch != [] && Accounted(sub, done, ch, w)
    ensures Accounted(sub, done + Present(ch[0]), ch[1..], w)
  {
    ContentsHead(ch);
  }

  lemma {:induction false} SubmitAccounts(sub: seq<Future>, done: seq<Event>, ch: seq<Batch>, w: Work, f: Future, at: Worker)
    requires Accounted(sub, done, ch, w) && !w.at.Delivering? && !at.Delivering?
    ensures Accounted(sub + [f], done, ch, Work(at, w.window + [f]))
  {
    assert Front(sub + [f]) == sub && Front(w.window + [f]) == w.window;
  }

  lemma {:induction false} SettleAccounts(sub: seq<Future>, done: seq<Event>, ch: seq<Batch>, w: Work, at: Worker)
    requires Accounted(sub, done, ch, w) && !w.at.Delivering? && w.window != []
    requires BeingDelivered(at) == ResultOf(w.window[0])
    ensures Accounted(sub, done, ch, Work(at, w.window[1..]))
  {
    ResultsHead(w.window);
  }

  lemma {:induction false} DeliverAccounts(sub: seq<Future>, done: seq<Event>, ch: seq<Batch>, w: Work, at: Worker)
    requires Accounted(sub, done, ch, w) && w.at.Delivering? && !at.Delivering?
    ensures Accounted(sub, done, ch + [w.at.batch], Work(at, w.window))
  {
    assert Front(ch + [w.at.batch]) == ch;
  }

  lemma {:induction false} MainAccounts(s: State, step: MainStep)
    requires Accounted(s.log.submitted, s.log.processed, s.ch.decoded, s.work) && MainEnabled(s, step)
    ensures var s' := MainApply(s, step);
            && s'.work == s.work && s'.log.submitted == s.log.submitted && s'.log.taken == s.log.taken
            && Accounted(s.log.submitted, s'.log.processed, s'.ch.decoded, s.work)
  {
    var s' := MainApply(s, step);
    if step.Collect? {
      CollectAccounts(s.log.submitted, s.log.processed, s.ch.decoded, s.work);
    } else {
      assert s'.log.processed == s.log.processed && s'.ch.decoded == s.ch.decoded;
    }
  }

  lemma {:induction false} WorkerAccounts(s: State, step: WorkerStep)
    requires Accounted(s.log.submitted, s.log.processed, s.ch.decoded, s.work) && WorkerEnabled(s, step)
    ensures var s' := WorkerApply(s, step);
            Accounted(s'.log.submitted, s'.log.processed, s'.ch.decoded, s'.work)
  {
    var s' := WorkerApply(s, step);
    var sub, done, ch := s.log.submitted, s.log.processed, s.ch.decoded;
    match step
    case Submit(_) => SubmitAccounts(sub, done, ch, s.work, Last(s'.work.window), s'.work.at);
    case WaitHead => SettleAccounts(sub, done, ch, s.work, s'.work.at);
    case Deliver => DeliverAccounts(sub, done, ch, s.work, s'.work.at);
    case _ =>
  }

  /** Whether or not the packet in the worker's hand is accepted, submission order stays capture order. */
  lemma {:induction false} HandInOrder(sub: seq<Future>, taken: seq<Packet>, at: Worker, f: Future)
    requires at.Submitting? && TakenInOrder(sub, taken, at) && f.packet == at.pkt
    ensures Subseq(Submitted(sub), taken)
    ensures Subseq(Submitted(sub + [f]), taken)
  {
    SubseqExtend(Submitted(sub), Front(taken), Last(taken));
    assert Front(taken) + [Last(taken)] == taken;
    assert Front(sub + [f]) == sub;
  }

  lemma {:induction false} WorkerTakesInOrder(s: State, step: WorkerStep)
    requires TakenInOrder(s.log.submitted, s.log.taken, s.work.at) && WorkerEnabled(s, step)
    ensures var s' := WorkerApply(s, step);
            TakenInOrder(s'.log.submitted, s'.log.taken, s'.work.at)
  {
    if step.Take? {
      assert Front(s.log.taken + [s.ch.decode[0]]) == s.log.taken;
    } else if s.work.at.Submitting? {
      var f := Future(s.work.at.pkt, if step.Submit? then step.outcome else None);
      HandInOrder(s.log.submitted, s.log.taken, s.work.at, f);
    }
  }

  // ---- whole runs ---------------------------------------------------------------------

  ghost predicate Inv(s: State) {
    && InOrder(s.log, s.queue, InHand(s)) && Counted(s)
    && ChannelInv(s) && ResultInv(s)
  }

  lemma {:induction false} MainKeepsInv(s: State, step: MainStep)
    requires Inv(s) && MainEnabled(s, step)
    ensures Inv(MainApply(s, step))
  {
    OrderStep(s, step);
    CountStep(s, step);
    ChannelMainStep(s, step);
    MainAccounts(s, step);
  }

  lemma {:induction false} WorkerKeepsInv(s: State, step: WorkerStep)
    requires Inv(s) && WorkerEnabled(s, step)
    ensures Inv(WorkerApply(s, step))
  {
    var s' := WorkerApply(s, step);
    assert s'.queue == s.queue && s'.main == s.main && s'.replay == s.replay;
    assert s'.log.sent == s.log.sent && s'.log.fed == s.log.fed && s'.log.abandoned == s.log.abandoned;
    ChannelWorkerStep(s, step);
    WorkerAccounts(s, step);
    WorkerTakesInOrder(s, step);
  }

  lemma {:induction false} RunKeepsInv(s: State, steps: seq<Step>)
    requires Inv(s) && Legal(s, steps)
    ensures Inv(Run(s, steps))
    decreases |steps|
  {
    if steps != [] {
      match steps[0] {
        case ByMain(m) => MainKeepsInv(s, m);
        case ByWorker(w) => WorkerKeepsInv(s, w);
      }
      RunKeepsInv(Apply(s, steps[0]), steps[1..]);
    }
  }

  lemma InitInv(replay: bool, maxBytes: int)
    ensures Inv(Init(replay, maxBytes))
  {
  }

  ghost predicate Reachable(s: State) {
    exists replay, maxBytes, steps ::
      Legal(Init(replay, maxBytes), steps) && s == Run(Init(replay, maxBytes), steps)
  }

  lemma ReachableInv(s: State)
    requires Reachable(s)
    ensures Inv(s)
  {
    var replay, maxBytes, steps :|
      Legal(Init(replay, maxBytes), steps) && s == Run(Init(replay, maxBytes), steps);
    InitInv(replay, maxBytes);
    RunKeepsInv(Init(replay, maxBytes), steps);
  }

  /**
   * Live capture: in every reachable state what was sent to the decoder, followed by the
   * overflow queue (and the packet being placed), is in capture order, and every fed packet
   * is sent, queued, being placed or counted as dropped. Nothing dropped means nothing missing.
   */
  lemma LiveCaptureKeepsOrder(s: State)
    requires Reachable(s) && !s.replay
    ensures Subseq(s.log.sent + s.queue.items + InHand(s), s.log.fed)
    ensures |s.log.fed| == |s.log.sent| + |s.queue.items| + |InHand(s)| + s.queue.dropped
    ensures s.queue.dropped == 0 ==> s.log.sent + s.queue.items + InHand(s) == s.log.fed
  {
    ReachableInv(s);
    SubseqLength(s.log.sent + s.queue.items + InHand(s), s.log.fed);
  }

  /** pcap replay never drops: unless cancelled, everything fed is sent or about to be, in order. */
  lemma ReplayDropsNothing(s: State)
    requires Reachable(s) && s.replay
    ensures s.queue.items == [] && s.queue.dropped == 0
    ensures |s.log.fed| == |s.log.sent| + |InHand(s)| + s.log.abandoned
    ensures s.log.abandoned == 0 ==> s.log.sent + InHand(s) == s.log.fed
  {
    ReachableInv(s);
    SubseqLength(s.log.sent + s.queue.items + InHand(s), s.log.fed);
    assert s.log.sent + [] == s.log.sent;
  }

  /**
   * The packets submitted for decoding are in capture order, and the events processed so far
   * are a prefix of the per-packet results concatenated in submission order, whatever order
   * the two goroutines ran in. Channels and window stay within their bounds.
   */
  lemma DecodingKeepsSubmissionOrder(s: State)
    requires Reachable(s)
    ensures Subseq(Submitted(s.log.submitted), s.log.fed)
    ensures s.log.processed <= Results(s.log.submitted)
    ensures |s.work.window| <= DECODE_WINDOW
    ensures |s.ch.decode| <= DECODE_QUEUE_SIZE && |s.ch.decoded| <= DECODED_QUEUE_SIZE
  {
    ReachableInv(s);
    if s.work.at.Submitting? {
      HandInOrder(s.log.submitted, s.log.taken, s.work.at, Future(s.work.at.pkt, None));
    }
    assert s.log.taken + (s.ch.decode + s.queue.items + InHand(s)) == s.log.sent + s.queue.items + InHand(s);
    PrefixSubseq(Submitted(s.log.submitted), s.log.taken, s.ch.decode + s.queue.items + InHand(s), s.log.fed);
  }

  // ---- shutdown -----------------------------------------------------------------------

  /** How much is left to do once decodeCh is closed. */
  function Rank(s: State): nat {
    8 * |s.ch.decode| + 4 * |s.work.window| + |s.ch.decoded| + (if s.main.Finished? then 0 else 1)
    + match s.work.at
      case Receiving => 2
      case Submitting(_) => 9
      case Settling => 2
      case Delivering(_, _) => 4
      case Closing => 1
      case Done => 0
  }

  lemma {:induction false} ShutdownStep(s: State, step: Step)
    requires ChannelInv(s) && (s.main.ShuttingDown? || s.main.Finished?) && Enabled(s, step)
    ensures var s' := Apply(s, step);
            (s'.main.ShuttingDown? || s'.main.Finished?) && Rank(s') < Rank(s)
  {
  }

  /** During shutdown one of the two goroutines can always go on. */
  lemma ShutdownNeverStuck(s: State)
    requires ChannelInv(s) && s.main.ShuttingDown?
    ensures exists step :: Enabled(s, step)
  {
    if s.ch.decoded != [] {
      assert Enabled(s, ByMain(Collect));
    } else {
      match s.work.at
      case Receiving =>
        if s.ch.decode != [] {
          assert Enabled(s, ByWorker(Take));
        } else {
          assert Enabled(s, ByWorker(SeeClosed));
        }
      case Submitting(_) =>
        assert Enabled(s, ByWorker(SubmitFails));
      case Settling => assert Enabled(s, ByWorker(WaitHead));
      case Delivering(_, _) => assert Enabled(s, ByWorker(Deliver));
      case Closing =>
        if s.work.window != [] {
          assert Enabled(s, ByWorker(WaitHead));
        } else {
          assert Enabled(s, ByWorker(CloseDecoded));
        }
      case Done => assert Enabled(s, ByMain(Finish));
    }
  }

  lemma {:induction false} ShutdownIsBounded(s: State, steps: seq<Step>)
    requires Inv(s) && (s.main.ShuttingDown? || s.main.Finished?) && Legal(s, steps)
    ensures var s' := Run(s, steps);
            Inv(s') && (s'.main.ShuttingDown? || s'.main.Finished?) && |steps| + Rank(s') <= Rank(s)
    decreases |steps|
  {
    if steps != [] {
      ShutdownStep(s, steps[0]);
      RunKeepsInv(s, [steps[0]]);
      assert Run(s, [steps[0]]) == Apply(s, steps[0]);
      ShutdownIsBounded(Apply(s, steps[0]), steps[1..]);
    }
  }

  /**
   * Once decodeCh is closed, every way of running the two goroutines until neither can move
   * is finite, ends with the capture loop finished, and leaves the events of every
   * submitted request processed, in submission order.
   */
  lemma ShutdownProcessesEverything(s: State, steps: seq<Step>)
    requires Reachable(s) && s.main.ShuttingDown? && Legal(s, steps)
    ensures |steps| <= Rank(s)
    ensures (forall step :: !Enabled(Run(s, steps), step)) ==>
              var end := Run(s, steps);
              && end.main.Finished? && end.ch.decode == []
              && end.log.processed == Results(end.log.submitted)
  {
    ReachableInv(s);
    ShutdownIsBounded(s, steps);
    var end := Run(s, steps);
    if end.main.ShuttingDown? {
      ShutdownNeverStuck(end);
    }
  }

  /** While pcap replay waits for room in decodeCh the pipeline cannot deadlock. */
  lemma ReplayNeverStuck(s: State)
    requires Reachable(s) && s.main.Replaying?
    ensures Enabled(s, ByMain(SendReplay)) || Enabled(s, ByMain(Collect))
            || exists w :: WorkerEnabled(s, w)
  {
    ReachableInv(s);
    if !Room(s) && s.ch.decoded == [] {
      match s.work.at
      case Receiving => assert WorkerEnabled(s, Take);
      case Submitting(_) => assert WorkerEnabled(s, SubmitFails);
      case Settling => assert WorkerEnabled(s, WaitHead);
      case Delivering(_, _) => assert WorkerEnabled(s, Deliver);
      case Closing => assert false;
      case Done => assert false;
    }
  }
}
