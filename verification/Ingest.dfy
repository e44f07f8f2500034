/**
 * cmd/gt-agent/ingest.go: the probe's uplink. Captured packets go to the spool first; a
 * stream sends them in batches and acknowledges a batch only after sending it. Any send,
 * read or sync may fail, streams come and go, the queue may be closed or the process stop
 * at any time, and opening the queue again may fail as well.
 */
module Ingest {
  import opened Seqs
  import opened Packets
  import opened Spool

  /** What the select of one loop iteration finds. `readable`: the spool can be read again. */
  datatype Event = Cancelled | Arrives(pkt: Packet, size: nat, io: Io, readable: bool) | TimerFires

  datatype Input = Input(readable: bool, event: Event, sends: bool, persists: bool)

  /** Packets that arrived; those counted as dropped; those counted although stored. */
  datatype Tally = Tally(arrived: seq<Packet>, dropped: nat, doubled: nat)

  /**
   * Batches sent: by earlier processes, on earlier streams of this one, on the current
   * stream. `base` are the records behind the read cursor when this process started.
   */
  datatype Traffic = Traffic(base: seq<Record>, before: seq<seq<Record>>, past: seq<seq<Record>>, stream: seq<seq<Record>>)
  {
    /** The records behind the read cursor when the current stream was opened. */
    function From(): seq<Record> {
      base + Concat(past)
    }

    function All(): seq<seq<Record>> {
      before + past + stream
    }
  }

  /** `alive`: there is a queue. `open`: there is a stream. Without a queue `spool` is its directory. */
  datatype Link = Link(spool: State, pending: seq<Record>, alive: bool, open: bool, traffic: Traffic, tally: Tally)

  function Contents(rs: seq<Record>): seq<Packet> {
    seq(|rs|, i requires 0 <= i < |rs| => rs[i].pkt)
  }

  /** Sending adds batches to the current stream only. */
  predicate SameStream(l: Link, t: Link) {
    && t.traffic.(stream := l.traffic.stream) == l.traffic && t.alive == l.alive
    && t.spool.nextIdx <= |t.spool.entries|
  }

  // ---- one iteration of the loop ------------------------------------------------------

  /** Sends what is pending and acknowledges it; a failed send ends the stream. */
  function Flush(l: Link, sends: bool, persists: bool): (t: Link)
    requires l.spool.nextIdx <= |l.spool.entries|
    ensures SameStream(l, t)
  {
    if l.pending == [] then l
    else if !sends then l.(open := false)
    else l.(spool := Acked(l.spool, |l.pending|, persists).1,
            traffic := l.traffic.(stream := l.traffic.stream + [l.pending]),
            pending := [])
  }

  /** Takes up to `n` more records out of the spool; an unreadable spool ends the stream. */
  function Take(l: Link, n: int, readable: bool): (t: Link)
    requires l.spool.nextIdx <= |l.spool.entries|
    ensures SameStream(l, t)
  {
    var next := Delivered(l.spool, n, readable);
    if next.None? then l.(open := false)
    else l.(pending := l.pending + next.value.0, spool := next.value.1)
  }

  function Counted(t: Tally, pkt: Packet, outcome: Outcome): Tally {
    Tally(t.arrived + [pkt],
          if outcome.Stored? then t.dropped else t.dropped + 1,
          if outcome.StoredUnsynced? then t.doubled + 1 else t.doubled)
  }

  function Store(l: Link, limits: Limits, e: Event): (Outcome, Link)
    requires e.Arrives?
  {
    var (outcome, spool) := Appended(l.spool, limits, e.pkt, e.size, e.io);
    (outcome, l.(spool := spool, tally := Counted(l.tally, e.pkt, outcome)))
  }

  /** Fills up the batch under way, and sends it when it is full. */
  function FillUp(l: Link, batchSize: int, readable: bool, sends: bool, persists: bool): (t: Link)
    requires l.spool.nextIdx <= |l.spool.entries|
    ensures SameStream(l, t)
  {
    SendIfFull(Take(l, batchSize - |l.pending|, readable), batchSize, sends, persists)
  }

  function SendIfFull(l: Link, batchSize: int, sends: bool, persists: bool): (t: Link)
    requires l.spool.nextIdx <= |l.spool.entries|
    ensures SameStream(l, t)
    ensures !l.open ==> t == l
  {
    if l.open && |l.pending| >= batchSize then Flush(l, sends, persists) else l
  }

  /** A packet goes to the spool first, and from there into the batch under way, if any. */
  function Receive(l: Link, batchSize: int, limits: Limits, inp: Input): (t: Link)
    requires inp.event.Arrives? && l.spool.nextIdx <= |l.spool.entries|
    ensures SameStream(l, t)
  {
    var (outcome, t) := Store(l, limits, inp.event);
    if outcome.Stored? && 0 < |t.pending| < batchSize then
      FillUp(t, batchSize, inp.event.readable, inp.sends, inp.persists)
    else t
  }

  function Respond(l: Link, batchSize: int, limits: Limits, inp: Input): (t: Link)
    requires l.spool.nextIdx <= |l.spool.entries|
    ensures SameStream(l, t)
  {
    match inp.event
    case Cancelled => Flush(l, inp.sends, inp.persists).(open := false)
    case TimerFires => Flush(l, inp.sends, inp.persists)
    case Arrives(_, _, _, _) => Receive(l, batchSize, limits, inp)
  }

  function Iterate(l: Link, batchSize: int, limits: Limits, inp: Input): (t: Link)
    requires l.open && l.spool.nextIdx <= |l.spool.entries|
    ensures SameStream(l, t)
  {
    if l.pending != [] then
      Respond(l, batchSize, limits, inp)
    else
      var t := Take(l, batchSize, inp.readable);
      if !t.open then t
      else if |t.pending| >= batchSize then SendIfFull(t, batchSize, inp.sends, inp.persists)
      else Respond(t, batchSize, limits, inp)
  }

  /** A new stream: what was in flight goes back to the head of the queue. */
  function Connect(l: Link): Link {
    l.(spool := Requeued(l.spool), pending := [], open := true,
       traffic := l.traffic.(past := l.traffic.past + l.traffic.stream, stream := []))
  }

  /** The process stops, at any point; the spool directory stays. */
  function Stop(l: Link): Link {
    l.(spool := Requeued(l.spool), pending := [], alive := false, open := false,
       traffic := Traffic(l.spool.acked, l.traffic.All(), [], []))
  }

  /** The queue is closed between two streams. */
  function Shut(l: Link, saves: bool): Link {
    Stop(l.(spool := Closed(l.spool, saves)))
  }

  /** A queue is opened on the directory, by a new process or for a new capture. */
  function Reopen(l: Link, io: OpenIo): Link
    requires l.spool.disk.cursor.at <= |l.spool.Log()|
  {
    var (ok, spool) := Opened(l.spool, io);
    l.(spool := spool, alive := ok, traffic := l.traffic.(base := spool.acked))
  }

  // ---- what every step keeps ----------------------------------------------------------

  /**
   * What is pending is exactly what is in flight, and the batches of the current stream
   * are, in order and without a gap, the records from where it was opened to the read cursor.
   */
  ghost predicate Inv(l: Link, batchSize: int) {
    && l.alive && l.spool.Valid()
    && l.pending == l.spool.InFlight()
    && |l.pending| <= batchSize
    && l.spool.acked == l.traffic.From() + Concat(l.traffic.stream)
    && forall b | b in l.traffic.stream :: 0 < |b| <= batchSize
  }

  /** Without a queue there is neither a stream nor a batch under way. */
  ghost predicate Down(l: Link) {
    && !l.alive && !l.open && l.spool.Stored()
    && l.spool.nextIdx == 0 && l.pending == []
    && l.traffic.past == [] && l.traffic.stream == [] && l.spool.acked == l.traffic.base
  }

  predicate SameBooks(l: Link, t: Link) {
    t.spool.Log() == l.spool.Log() && t.tally == l.tally
  }

  lemma {:induction false} FlushKeeps(l: Link, batchSize: int, sends: bool, persists: bool)
    requires Inv(l, batchSize)
    ensures var t := Flush(l, sends, persists);
            && Inv(t, batchSize) && t.spool.Log() == l.spool.Log() && t.tally == l.tally
            && (t.open && l.open ==> t.pending == [])
  {
    AckKeeps(l.spool, |l.pending|, persists);
    assert Front(l.traffic.stream + [l.pending]) == l.traffic.stream;
  }

  lemma {:induction false} TakeKeeps(l: Link, batchSize: int, readable: bool)
    requires Inv(l, batchSize) && |l.pending| < batchSize
    ensures var t := Take(l, batchSize - |l.pending|, readable);
            Inv(t, batchSize) && t.spool == l.spool.(nextIdx := t.spool.nextIdx) && t.tally == l.tally
  {
  }

  lemma {:induction false} StoreKeeps(l: Link, batchSize: int, limits: Limits, e: Event)
    requires Inv(l, batchSize) && e.Arrives?
    ensures var t := Store(l, limits, e).1;
            Inv(t, batchSize) && t.pending == l.pending && t.open == l.open
  {
    AppendKeeps(l.spool, limits, e.pkt, e.size, e.io);
  }

  /** Between two iterations the batch under way is not full. */
  ghost predicate Between(l: Link, batchSize: int) {
    Inv(l, batchSize) && (l.open ==> |l.pending| < batchSize)
  }

  lemma {:induction false} SendIfFullKeeps(l: Link, batchSize: int, sends: bool, persists: bool)
    requires Inv(l, batchSize) && batchSize > 0
    ensures Between(SendIfFull(l, batchSize, sends, persists), batchSize)
  {
    FlushKeeps(l, batchSize, sends, persists);
  }

  lemma {:induction false} FillUpKeeps(l: Link, batchSize: int, readable: bool, sends: bool, persists: bool)
    requires Inv(l, batchSize) && |l.pending| < batchSize
    ensures Between(FillUp(l, batchSize, readable, sends, persists), batchSize)
  {
    var t := Take(l, batchSize - |l.pending|, readable);
    assert Inv(t, batchSize) by {
      TakeKeeps(l, batchSize, readable);
    }
    var u := SendIfFull(t, batchSize, sends, persists);
    assert Between(u, batchSize) by {
      SendIfFullKeeps(t, batchSize, sends, persists);
    }
    assert FillUp(l, batchSize, readable, sends, persists) == u;
  }

  lemma {:induction false} RespondKeeps(l: Link, batchSize: int, limits: Limits, inp: Input)
    requires Inv(l, batchSize) && l.open && |l.pending| < batchSize
    ensures Between(Respond(l, batchSize, limits, inp), batchSize)
  {
    match inp.event
    case Arrives(_, _, _, _) =>
      var t := Store(l, limits, inp.event).1;
      StoreKeeps(l, batchSize, limits, inp.event);
      FillUpKeeps(t, batchSize, inp.event.readable, inp.sends, inp.persists);
    case _ =>
      FlushKeeps(l, batchSize, inp.sends, inp.persists);
  }

  lemma {:induction false} IterateKeeps(l: Link, batchSize: int, limits: Limits, inp: Input)
    requires Between(l, batchSize) && l.open && batchSize > 0
    ensures Between(Iterate(l, batchSize, limits, inp), batchSize)
  {
    var t := if l.pending == [] then Take(l, batchSize, inp.readable) else l;
    assert Inv(t, batchSize) by {
      if l.pending == [] {
        TakeKeeps(l, batchSize, inp.readable);
      }
    }
    assert Between(SendIfFull(t, batchSize, inp.sends, inp.persists), batchSize) by {
      SendIfFullKeeps(t, batchSize, inp.sends, inp.persists);
    }
    if t.open && |t.pending| < batchSize {
      RespondKeeps(t, batchSize, limits, inp);
    }
  }

  lemma {:induction false} ConnectKeeps(l: Link, batchSize: int)
    requires Inv(l, batchSize) && batchSize > 0
    ensures Between(Connect(l), batchSize)
  {
    ConcatAppend(l.traffic.past, l.traffic.stream);
  }

  lemma {:induction false} StopKeeps(l: Link, batchSize: int)
    requires Inv(l, batchSize)
    ensures Down(Stop(l)) && SameBooks(l, Stop(l))
  {
  }

  lemma {:induction false} ShutKeeps(l: Link, batchSize: int, saves: bool)
    requires Inv(l, batchSize)
    ensures Inv(l.(spool := Closed(l.spool, saves)), batchSize)
    ensures Down(Shut(l, saves)) && SameBooks(l, Shut(l, saves))
  {
    CloseKeeps(l.spool, saves);
    StopKeeps(l.(spool := Closed(l.spool, saves)), batchSize);
  }

  lemma {:induction false} ReopenKeeps(l: Link, batchSize: int, io: OpenIo)
    requires Down(l) && batchSize > 0
    ensures SameBooks(l, Reopen(l, io))
    ensures if Reopen(l, io).alive then Between(Reopen(l, io), batchSize) else Down(Reopen(l, io))
  {
    OpeningKeeps(l.spool, io);
  }

  // ---- every packet that arrives is stored or counted ---------------------------------

  ghost predicate Accounted(l: Link) {
    && |l.spool.Log()| + l.tally.dropped == |l.tally.arrived| + l.tally.doubled
    && Subseq(Contents(l.spool.Log()), l.tally.arrived)
  }

  lemma {:induction false} StoreAccounts(l: Link, limits: Limits, e: Event)
    requires Accounted(l) && e.Arrives?
    ensures Accounted(Store(l, limits, e).1)
  {
    var (outcome, t) := Store(l, limits, e);
    var log := l.spool.Log();
    SubseqExtend(Contents(log), l.tally.arrived, e.pkt);
    if !outcome.Rejected? {
      var rec := Last(t.spool.entries);
      assert t.spool.Log() == log + [rec];
      assert Contents(log + [rec]) == Contents(log) + [e.pkt];
    }
  }

  lemma {:induction false} SendIfFullBooks(l: Link, batchSize: int, sends: bool, persists: bool)
    requires Inv(l, batchSize)
    ensures SameBooks(l, SendIfFull(l, batchSize, sends, persists))
  {
    FlushKeeps(l, batchSize, sends, persists);
  }

  lemma {:induction false} TakeBooks(l: Link, batchSize: int, readable: bool)
    requires Inv(l, batchSize) && |l.pending| < batchSize
    ensures var t := Take(l, batchSize - |l.pending|, readable);
            Inv(t, batchSize) && SameBooks(l, t)
  {
    TakeKeeps(l, batchSize, readable);
  }

  lemma SameBooksTwice(l: Link, t: Link, batchSize: int, sends: bool, persists: bool)
    requires SameBooks(l, t) && Inv(t, batchSize)
    ensures SameBooks(l, SendIfFull(t, batchSize, sends, persists))
  {
    var u := SendIfFull(t, batchSize, sends, persists);
    assert SameBooks(t, u) by {
      SendIfFullBooks(t, batchSize, sends, persists);
    }
  }

  lemma {:induction false} FillUpBooks(l: Link, batchSize: int, readable: bool, sends: bool, persists: bool)
    requires Inv(l, batchSize) && |l.pending| < batchSize
    ensures SameBooks(l, FillUp(l, batchSize, readable, sends, persists))
  {
    TakeBooks(l, batchSize, readable);
    SameBooksTwice(l, Take(l, batchSize - |l.pending|, readable), batchSize, sends, persists);
  }

  lemma {:induction false} ReceiveAccounts(l: Link, batchSize: int, limits: Limits, inp: Input)
    requires Inv(l, batchSize) && Accounted(l) && inp.event.Arrives?
    ensures Accounted(Receive(l, batchSize, limits, inp))
  {
    var t := Store(l, limits, inp.event).1;
    StoreAccounts(l, limits, inp.event);
    if |l.pending| < batchSize {
      assert Inv(t, batchSize) by {
        StoreKeeps(l, batchSize, limits, inp.event);
      }
      FillUpBooks(t, batchSize, inp.event.readable, inp.sends, inp.persists);
    }
  }

  lemma {:induction false} RespondAccounts(l: Link, batchSize: int, limits: Limits, inp: Input)
    requires Inv(l, batchSize) && Accounted(l)
    ensures Accounted(Respond(l, batchSize, limits, inp))
  {
    if inp.event.Arrives? {
      ReceiveAccounts(l, batchSize, limits, inp);
    } else {
      FlushKeeps(l, batchSize, inp.sends, inp.persists);
    }
  }

  lemma {:induction false} IterateAccounts(l: Link, batchSize: int, limits: Limits, inp: Input)
    requires Between(l, batchSize) && Accounted(l) && l.open && batchSize > 0
    ensures Accounted(Iterate(l, batchSize, limits, inp))
  {
    var t := if l.pending == [] then Take(l, batchSize, inp.readable) else l;
    assert Inv(t, batchSize) && SameBooks(l, t) by {
      if l.pending == [] {
        TakeKeeps(l, batchSize, inp.readable);
      }
    }
    assert SameBooks(t, SendIfFull(t, batchSize, inp.sends, inp.persists)) by {
      SendIfFullBooks(t, batchSize, inp.sends, inp.persists);
    }
    assert Accounted(Respond(t, batchSize, limits, inp)) by {
      RespondAccounts(t, batchSize, limits, inp);
    }
  }

  // ---- whole runs: streams, failures, restarts ----------------------------------------

  datatype Step = Connects | Loops(inp: Input) | Stops | Closes(saves: bool) | Opens(io: OpenIo)

  function Init(): Link {
    Link(Fresh(), [], true, false, Traffic([], [], [], []), Tally([], 0, 0))
  }

  predicate Enabled(l: Link, step: Step) {
    match step
    case Connects => l.alive && !l.open
    case Loops(_) => l.alive && l.open
    case Stops => l.alive
    case Closes(_) => l.alive && !l.open
    case Opens(_) => !l.alive
  }

  predicate Ready(l: Link) {
    l.spool.nextIdx <= |l.spool.entries| && l.spool.disk.cursor.at <= |l.spool.Log()|
  }

  function Apply(l: Link, batchSize: int, limits: Limits, step: Step): Link
    requires Ready(l) && Enabled(l, step)
  {
    match step
    case Connects => Connect(l)
    case Loops(inp) => Iterate(l, batchSize, limits, inp)
    case Stops => Stop(l)
    case Closes(saves) => Shut(l, saves)
    case Opens(io) => Reopen(l, io)
  }

  ghost predicate Good(l: Link, batchSize: int) {
    && (if l.alive then Between(l, batchSize) else Down(l))
    && Accounted(l)
  }

  lemma {:induction false} StepKeeps(l: Link, batchSize: int, limits: Limits, step: Step)
    requires Good(l, batchSize) && Enabled(l, step) && batchSize > 0
    ensures Good(Apply(l, batchSize, limits, step), batchSize)
  {
    match step
    case Connects => ConnectKeeps(l, batchSize);
    case Loops(inp) =>
      IterateKeeps(l, batchSize, limits, inp);
      IterateAccounts(l, batchSize, limits, inp);
    case Stops => StopKeeps(l, batchSize);
    case Closes(saves) => ShutKeeps(l, batchSize, saves);
    case Opens(io) => ReopenKeeps(l, batchSize, io);
  }

  predicate Legal(l: Link, batchSize: int, limits: Limits, run: seq<Step>)
    decreases |run|
  {
    run == [] ||
    (Ready(l) && Enabled(l, run[0]) && Legal(Apply(l, batchSize, limits, run[0]), batchSize, limits, run[1..]))
  }

  function Run(l: Link, batchSize: int, limits: Limits, run: seq<Step>): Link
    requires Legal(l, batchSize, limits, run)
    decreases |run|
  {
    if run == [] then l else Run(Apply(l, batchSize, limits, run[0]), batchSize, limits, run[1..])
  }

  lemma {:induction false} RunKeeps(l: Link, batchSize: int, limits: Limits, run: seq<Step>)
    requires Good(l, batchSize) && batchSize > 0 && Legal(l, batchSize, limits, run)
    ensures Good(Run(l, batchSize, limits, run), batchSize)
    decreases |run|
  {
    if run != [] {
      StepKeeps(l, batchSize, limits, run[0]);
      RunKeeps(Apply(l, batchSize, limits, run[0]), batchSize, limits, run[1..]);
    }
  }

  lemma InitIsGood(batchSize: int)
    requires batchSize > 0
    ensures Good(Init(), batchSize) && BaseSent(Init())
  {
  }

  /**
   * However streams end, sends, acknowledgements and openings fail, and processes stop: what
   * is pending is exactly what is in flight; the batches of the current stream are nonempty,
   * at most batchSize long, and are together the log from where the stream was opened to the
   * read cursor, without a gap.
   */
  lemma StreamsHaveNoGaps(batchSize: int, limits: Limits, run: seq<Step>)
    requires batchSize > 0 && Legal(Init(), batchSize, limits, run)
    ensures var l := Run(Init(), batchSize, limits, run);
            var from := |l.traffic.From()|;
            && l.spool.nextIdx <= |l.spool.entries|
            && l.pending == l.spool.InFlight()
            && (forall b | b in l.traffic.stream :: 0 < |b| <= batchSize)
            && from <= |l.spool.acked|
            && Concat(l.traffic.stream) == l.spool.Log()[from..|l.spool.acked|]
  {
    InitIsGood(batchSize);
    RunKeeps(Init(), batchSize, limits, run);
    var l := Run(Init(), batchSize, limits, run);
    assert l.spool.Log()[..|l.spool.acked|] == l.spool.acked;
  }

  /**
   * Every packet that arrives is stored, in order, or counted as dropped: arrivals are
   * stored plus dropped, except that a packet whose sync failed is counted although stored.
   */
  lemma ArrivalsAreAccounted(batchSize: int, limits: Limits, run: seq<Step>)
    requires batchSize > 0 && Legal(Init(), batchSize, limits, run)
    ensures var l := Run(Init(), batchSize, limits, run);
            && Subseq(Contents(l.spool.Log()), l.tally.arrived)
            && |l.tally.arrived| == |l.spool.Log()| + l.tally.dropped - l.tally.doubled
            && (|l.tally.arrived| == |l.spool.Log()| + l.tally.dropped <==> l.tally.doubled == 0)
  {
    InitIsGood(batchSize);
    RunKeeps(Init(), batchSize, limits, run);
  }

  // ---- at least once ------------------------------------------------------------------

  /** The records behind the cursor when this queue was opened were sent before. */
  ghost predicate BaseSent(l: Link) {
    forall r | r in l.traffic.base :: r in Concat(l.traffic.before)
  }

  /** Every record behind the read cursor is in a batch that was sent. */
  lemma {:induction false} AckedIsSent(l: Link, batchSize: int, r: Record)
    requires (Inv(l, batchSize) || Down(l)) && BaseSent(l) && r in l.spool.acked
    ensures r in Concat(l.traffic.All())
  {
    ConcatAppend(l.traffic.before + l.traffic.past, l.traffic.stream);
    ConcatAppend(l.traffic.before, l.traffic.past);
  }

  lemma {:induction false} StopKeepsSent(l: Link, batchSize: int)
    requires Inv(l, batchSize) && BaseSent(l)
    ensures BaseSent(Stop(l))
  {
    forall r | r in l.spool.acked
      ensures r in Concat(l.traffic.All())
    {
      AckedIsSent(l, batchSize, r);
    }
  }

  lemma {:induction false} ReopenKeepsSent(l: Link, io: OpenIo)
    requires Down(l) && BaseSent(l) && NotAhead(l.spool)
    ensures BaseSent(Reopen(l, io))
  {
    var spool := Opened(l.spool, io).1;
    assert spool.acked <= l.spool.acked by {
      var at := l.spool.disk.cursor.at;
      assert l.spool.Log()[..at] == l.spool.acked[..at];
    }
  }

  /** No opening fails in a way that writes a cursor past what is unacknowledged. */
  predicate NeverSkips(l: Link, batchSize: int, limits: Limits, run: seq<Step>)
    requires Legal(l, batchSize, limits, run)
    decreases |run|
  {
    run == [] ||
    ((run[0].Opens? ==> !Skips(l.spool, run[0].io))
     && NeverSkips(Apply(l, batchSize, limits, run[0]), batchSize, limits, run[1..]))
  }

  /** The cursor on disk is never past what was acknowledged. */
  predicate NeverAhead(l: Link, batchSize: int, limits: Limits, run: seq<Step>)
    requires Legal(l, batchSize, limits, run)
    decreases |run|
  {
    && NotAhead(l.spool)
    && (run == [] || NeverAhead(Apply(l, batchSize, limits, run[0]), batchSize, limits, run[1..]))
  }

  lemma {:induction false} StepStaysBehindIff(l: Link, batchSize: int, limits: Limits, step: Step)
    requires Good(l, batchSize) && NotAhead(l.spool) && Enabled(l, step) && batchSize > 0
    ensures NotAhead(Apply(l, batchSize, limits, step).spool) <==> !(step.Opens? && Skips(l.spool, step.io))
  {
    StepKeeps(l, batchSize, limits, step);
    if step.Opens? {
      CursorStaysBehindIff(l.spool, step.io);
    } else if step.Loops? {
      assert Apply(l, batchSize, limits, step).spool.Valid();
    }
  }

  lemma {:induction false} StaysBehindIff(l: Link, batchSize: int, limits: Limits, run: seq<Step>)
    requires Good(l, batchSize) && NotAhead(l.spool) && batchSize > 0 && Legal(l, batchSize, limits, run)
    ensures NeverAhead(l, batchSize, limits, run) <==> NeverSkips(l, batchSize, limits, run)
    decreases |run|
  {
    if run != [] {
      var t := Apply(l, batchSize, limits, run[0]);
      StepKeeps(l, batchSize, limits, run[0]);
      StepStaysBehindIff(l, batchSize, limits, run[0]);
      if NotAhead(t.spool) {
        StaysBehindIff(t, batchSize, limits, run[1..]);
      }
    }
  }

  /**
   * In a whole run the cursor on disk stays behind what was acknowledged if and only if no
   * opening fails before its queue is filled, writes the cursor all the same, and has
   * something unacknowledged to skip.
   */
  lemma CursorNeverAheadIff(batchSize: int, limits: Limits, run: seq<Step>)
    requires batchSize > 0 && Legal(Init(), batchSize, limits, run)
    ensures NeverAhead(Init(), batchSize, limits, run) <==> NeverSkips(Init(), batchSize, limits, run)
  {
    InitIsGood(batchSize);
    StaysBehindIff(Init(), batchSize, limits, run);
  }

  lemma {:induction false} StepKeepsSent(l: Link, batchSize: int, limits: Limits, step: Step)
    requires Good(l, batchSize) && BaseSent(l) && NotAhead(l.spool) && Enabled(l, step) && batchSize > 0
    ensures BaseSent(Apply(l, batchSize, limits, step))
  {
    match step
    case Connects =>
    case Loops(inp) => assert SameStream(l, Iterate(l, batchSize, limits, inp));
    case Stops => StopKeepsSent(l, batchSize);
    case Closes(saves) =>
      ShutKeeps(l, batchSize, saves);
      StopKeepsSent(l.(spool := Closed(l.spool, saves)), batchSize);
    case Opens(io) => ReopenKeepsSent(l, io);
  }

  lemma {:induction false} RunKeepsSent(l: Link, batchSize: int, limits: Limits, run: seq<Step>)
    requires Good(l, batchSize) && BaseSent(l) && batchSize > 0
    requires Legal(l, batchSize, limits, run) && NeverAhead(l, batchSize, limits, run)
    ensures BaseSent(Run(l, batchSize, limits, run))
    decreases |run|
  {
    if run != [] {
      StepKeeps(l, batchSize, limits, run[0]);
      StepKeepsSent(l, batchSize, limits, run[0]);
      RunKeepsSent(Apply(l, batchSize, limits, run[0]), batchSize, limits, run[1..]);
    }
  }

  /**
   * At least once: whatever fails and however often queues are closed, processes stop and
   * openings fail, a record is behind the read cursor only if a batch with it was sent, unless
   * an opening skipped what was unacknowledged (RestartCanLoseRecords shows one).
   */
  lemma AcknowledgedWasSent(batchSize: int, limits: Limits, run: seq<Step>, r: Record)
    requires batchSize > 0 && Legal(Init(), batchSize, limits, run) && NeverSkips(Init(), batchSize, limits, run)
    requires r in Run(Init(), batchSize, limits, run).spool.acked
    ensures r in Concat(Run(Init(), batchSize, limits, run).traffic.All())
  {
    InitIsGood(batchSize);
    RunKeeps(Init(), batchSize, limits, run);
    StaysBehindIff(Init(), batchSize, limits, run);
    RunKeepsSent(Init(), batchSize, limits, run);
    AckedIsSent(Run(Init(), batchSize, limits, run), batchSize, r);
  }

  // ---- how much is unacknowledged, and how much is repeated ---------------------------

  predicate Within(l: Link, limits: Limits) {
    Bytes(l.spool.entries) <= limits.maxBytes
  }

  /** From l to t the limit is kept, and the saved cursor stays recent as long as saving works. */
  predicate Bounded(l: Link, t: Link, limits: Limits, persists: bool) {
    && (Within(l, limits) ==> Within(t, limits))
    && (Recent(l.spool) && persists ==> Recent(t.spool))
  }

  lemma {:induction false} FlushBounds(l: Link, batchSize: int, limits: Limits, sends: bool, persists: bool)
    requires Inv(l, batchSize)
    ensures Bounded(l, Flush(l, sends, persists), limits, persists)
  {
    var n := |l.pending|;
    AckKeeps(l.spool, n, persists);
    BytesDrop(l.spool.entries, n);
  }

  lemma {:induction false} TakeBounds(l: Link, batchSize: int, limits: Limits, readable: bool, persists: bool)
    requires Inv(l, batchSize) && |l.pending| < batchSize
    ensures var t := Take(l, batchSize - |l.pending|, readable);
            Inv(t, batchSize) && Bounded(l, t, limits, persists)
  {
    TakeKeeps(l, batchSize, readable);
  }

  lemma {:induction false} TakeAndSendBounds(l: Link, batchSize: int, limits: Limits, readable: bool, sends: bool, persists: bool)
    requires Inv(l, batchSize) && |l.pending| < batchSize
    ensures var t := Take(l, batchSize - |l.pending|, readable);
            Bounded(l, SendIfFull(t, batchSize, sends, persists), limits, persists)
  {
    var t := Take(l, batchSize - |l.pending|, readable);
    TakeBounds(l, batchSize, limits, readable, persists);
    SendIfFullBounds(l, t, batchSize, limits, sends, persists);
  }

  lemma {:induction false} FillUpBounds(l: Link, batchSize: int, limits: Limits, readable: bool, sends: bool, persists: bool)
    requires Inv(l, batchSize) && |l.pending| < batchSize
    ensures Bounded(l, FillUp(l, batchSize, readable, sends, persists), limits, persists)
  {
    TakeAndSendBounds(l, batchSize, limits, readable, sends, persists);
  }

  lemma {:induction false} SendIfFullBounds(l: Link, t: Link, batchSize: int, limits: Limits, sends: bool, persists: bool)
    requires Bounded(l, t, limits, persists) && Inv(t, batchSize)
    ensures Bounded(l, SendIfFull(t, batchSize, sends, persists), limits, persists)
  {
    var u := Flush(t, sends, persists);
    assert Bounded(t, u, limits, persists) by {
      FlushBounds(t, batchSize, limits, sends, persists);
    }
    assert Bounded(l, u, limits, persists);
  }

  lemma {:induction false} ReceiveBounds(l: Link, batchSize: int, limits: Limits, inp: Input)
    requires Inv(l, batchSize) && inp.event.Arrives?
    ensures Bounded(l, Receive(l, batchSize, limits, inp), limits, inp.persists)
  {
    var e := inp.event;
    var t := Store(l, limits, e).1;
    assert Bounded(l, t, limits, inp.persists) by {
      BytesAppend(l.spool.entries, Record(e.pkt, e.size, Rolled(l.spool.tail, limits).seg));
    }
    assert Inv(t, batchSize) && t.pending == l.pending by {
      StoreKeeps(l, batchSize, limits, e);
    }
    if |t.pending| < batchSize {
      FillUpBounds(t, batchSize, limits, e.readable, inp.sends, inp.persists);
    }
  }

  lemma {:induction false} RespondBounds(l: Link, batchSize: int, limits: Limits, inp: Input)
    requires Inv(l, batchSize)
    ensures Bounded(l, Respond(l, batchSize, limits, inp), limits, inp.persists)
  {
    if inp.event.Arrives? {
      ReceiveBounds(l, batchSize, limits, inp);
    } else {
      FlushBounds(l, batchSize, limits, inp.sends, inp.persists);
    }
  }

  lemma {:induction false} IterateBounds(l: Link, batchSize: int, limits: Limits, inp: Input)
    requires Between(l, batchSize) && l.open && batchSize > 0
    ensures Bounded(l, Iterate(l, batchSize, limits, inp), limits, inp.persists)
  {
    var t := if l.pending == [] then Take(l, batchSize, inp.readable) else l;
    assert Inv(t, batchSize) by {
      if l.pending == [] {
        TakeKeeps(l, batchSize, inp.readable);
      }
    }
    assert Bounded(t, Flush(t, inp.sends, inp.persists), limits, inp.persists) by {
      FlushBounds(t, batchSize, limits, inp.sends, inp.persists);
    }
    assert Bounded(t, Respond(t, batchSize, limits, inp), limits, inp.persists) by {
      RespondBounds(t, batchSize, limits, inp);
    }
  }

  /** Whether writing the cursor works in this step. */
  predicate Saves(step: Step) {
    match step
    case Loops(inp) => inp.persists
    case Closes(saves) => saves
    case _ => true
  }

  lemma {:induction false} StepBounds(l: Link, batchSize: int, limits: Limits, step: Step)
    requires Good(l, batchSize) && Enabled(l, step) && batchSize > 0 && !step.Opens?
    ensures Bounded(l, Apply(l, batchSize, limits, step), limits, Saves(step))
  {
    match step
    case Loops(inp) => IterateBounds(l, batchSize, limits, inp);
    case _ =>
  }

  /** In every state of the run the unacknowledged records are within the limit. */
  predicate AlwaysWithin(l: Link, batchSize: int, limits: Limits, run: seq<Step>)
    requires Legal(l, batchSize, limits, run)
    decreases |run|
  {
    && Within(l, limits)
    && (run == [] || AlwaysWithin(Apply(l, batchSize, limits, run[0]), batchSize, limits, run[1..]))
  }

  /** Whenever opening succeeds, no more than the limit is on disk from the saved cursor on. */
  predicate OpensWithin(l: Link, batchSize: int, limits: Limits, run: seq<Step>)
    requires Legal(l, batchSize, limits, run)
    decreases |run|
  {
    run == [] ||
    ((run[0].Opens? && Opened(l.spool, run[0].io).0 ==>
        Bytes(l.spool.Log()[l.spool.disk.cursor.at..]) <= limits.maxBytes)
     && OpensWithin(Apply(l, batchSize, limits, run[0]), batchSize, limits, run[1..]))
  }

  /**
   * What is unacknowledged stays within the limit over a whole run if and only if every queue
   * that is opened finds no more than that: appending checks the limit, opening does not.
   */
  lemma {:induction false} StaysWithinLimitIff(l: Link, batchSize: int, limits: Limits, run: seq<Step>)
    requires Good(l, batchSize) && Within(l, limits) && batchSize > 0 && Legal(l, batchSize, limits, run)
    ensures AlwaysWithin(l, batchSize, limits, run) <==> OpensWithin(l, batchSize, limits, run)
    decreases |run|
  {
    if run != [] {
      var t := Apply(l, batchSize, limits, run[0]);
      StepKeeps(l, batchSize, limits, run[0]);
      if !run[0].Opens? {
        StepBounds(l, batchSize, limits, run[0]);
      }
      if Within(t, limits) {
        StaysWithinLimitIff(t, batchSize, limits, run[1..]);
      }
    }
  }

  lemma {:induction false} RunStaysRecent(l: Link, batchSize: int, limits: Limits, run: seq<Step>)
    requires Good(l, batchSize) && (l.alive ==> Recent(l.spool)) && batchSize > 0
    requires Legal(l, batchSize, limits, run) && forall step | step in run :: Saves(step)
    ensures var t := Run(l, batchSize, limits, run); t.alive ==> Recent(t.spool)
    decreases |run|
  {
    if run != [] {
      var t := Apply(l, batchSize, limits, run[0]);
      StepKeeps(l, batchSize, limits, run[0]);
      if run[0].Opens? {
        OpensIff(l.spool, run[0].io);
      } else {
        StepBounds(l, batchSize, limits, run[0]);
      }
      RunStaysRecent(t, batchSize, limits, run[1..]);
    }
  }

  /**
   * After any run in which the cursor could always be saved, a process that stops at any point
   * makes the next one send again fewer than 512 records: those acknowledged since then.
   */
  lemma RestartRepeatsFew(batchSize: int, limits: Limits, run: seq<Step>, io: OpenIo)
    requires batchSize > 0 && Legal(Init(), batchSize, limits, run) && forall step | step in run :: Saves(step)
    requires Run(Init(), batchSize, limits, run).alive
    ensures var l := Run(Init(), batchSize, limits, run);
            l.spool.disk.cursor.at <= |l.spool.Log()| &&
            var t := Reopen(Stop(l), io);
            t.alive ==>
              && |l.spool.acked| - |t.spool.acked| < CURSOR_SYNC_EVERY
              && t.spool.acked <= l.spool.acked
              && t.spool.entries == l.spool.acked[|t.spool.acked|..] + l.spool.entries
  {
    InitIsGood(batchSize);
    RunKeeps(Init(), batchSize, limits, run);
    RunStaysRecent(Init(), batchSize, limits, run);
    var l := Run(Init(), batchSize, limits, run);
    if Reopen(Stop(l), io).alive {
      StoppedRepeats(l, batchSize, io);
    }
  }

  lemma {:induction false} StoppedRepeats(l: Link, batchSize: int, io: OpenIo)
    requires Inv(l, batchSize) && Reopen(Stop(l), io).alive
    ensures var t := Reopen(Stop(l), io);
            && |t.spool.acked| == l.spool.disk.cursor.at
            && t.spool.acked <= l.spool.acked
            && t.spool.entries == l.spool.acked[|t.spool.acked|..] + l.spool.entries
  {
    var at := l.spool.disk.cursor.at;
    assert Stop(l).spool.Stored();
    OpensIff(Stop(l).spool, io);
    assert Stop(l).spool.Log() == l.spool.Log();
    assert l.spool.Log()[..at] == l.spool.acked[..at];
    assert l.spool.Log()[at..] == l.spool.acked[at..] + l.spool.entries;
  }

  // ---- progress -----------------------------------------------------------------------

  /** An iteration in which the spool can be read, the batch is sent, and the timer fires. */
  predicate Works(inp: Input) {
    inp.readable && inp.sends && inp.event.TimerFires?
  }

  /** While something is unacknowledged, a working iteration acknowledges some of it. */
  lemma {:induction false} WorkingIterationAcks(l: Link, batchSize: int, limits: Limits, inp: Input)
    requires Between(l, batchSize) && l.open && batchSize > 0 && Works(inp)
    ensures var t := Iterate(l, batchSize, limits, inp);
            && t.open && |t.spool.entries| <= |l.spool.entries|
            && (l.spool.entries != [] ==> |t.spool.entries| < |l.spool.entries|)
  {
    var t := if l.pending == [] then Take(l, batchSize, inp.readable) else l;
    assert Inv(t, batchSize) && t.open && t.spool.entries == l.spool.entries by {
      if l.pending == [] {
        TakeKeeps(l, batchSize, inp.readable);
      }
    }
    assert l.spool.entries != [] ==> t.pending != [];
    var u := Flush(t, true, inp.persists);
    assert u.open && u.spool.entries == t.spool.entries[|t.pending|..] by {
      AckKeeps(t.spool, |t.pending|, inp.persists);
    }
    assert Iterate(l, batchSize, limits, inp) == u;
  }

  function Iterations(l: Link, batchSize: int, limits: Limits, inputs: seq<Input>): (t: Link)
    requires l.spool.nextIdx <= |l.spool.entries|
    ensures SameStream(l, t)
    decreases |inputs|
  {
    if inputs == [] || !l.open then l
    else Iterations(Iterate(l, batchSize, limits, inputs[0]), batchSize, limits, inputs[1..])
  }

  /** One stream over any inputs keeps what every step keeps. */
  lemma {:induction false} IterationsKeep(l: Link, batchSize: int, limits: Limits, inputs: seq<Input>)
    requires Good(l, batchSize) && batchSize > 0
    ensures Good(Iterations(l, batchSize, limits, inputs), batchSize)
    decreases |inputs|
  {
    if inputs != [] && l.open {
      IterateKeeps(l, batchSize, limits, inputs[0]);
      IterateAccounts(l, batchSize, limits, inputs[0]);
      IterationsKeep(Iterate(l, batchSize, limits, inputs[0]), batchSize, limits, inputs[1..]);
    }
  }

  /** A stream that works long enough sends and acknowledges everything in the spool. */
  lemma {:induction false} BacklogDrains(l: Link, batchSize: int, limits: Limits, inputs: seq<Input>)
    requires Between(l, batchSize) && l.open && batchSize > 0
    requires |l.spool.entries| <= |inputs| && forall inp | inp in inputs :: Works(inp)
    ensures var t := Iterations(l, batchSize, limits, inputs);
            t.open && t.spool.entries == [] && t.spool.acked == l.traffic.From() + Concat(t.traffic.stream)
    decreases |inputs|
  {
    if inputs != [] {
      var t := Iterate(l, batchSize, limits, inputs[0]);
      IterateKeeps(l, batchSize, limits, inputs[0]);
      WorkingIterationAcks(l, batchSize, limits, inputs[0]);
      BacklogDrains(t, batchSize, limits, inputs[1..]);
    }
  }
}
