/**
 * pkg/agent/agent.go and control.go: a relayed connection reports to whatever capture is
 * current. Captures are numbered by epoch; two forwarders of one connection read the
 * current capture without a lock and may act on it late.
 */
module RelayEpochs {
  import opened Seqs

  type Epoch = nat

  datatype Filter = Filter(hosts: set<string>, ports: set<int>)

  /** host:port with the host in lower case; the port may not be a number. */
  datatype Target = Address(host: string, port: Option<int>) | Unparsable

  /** connectionFilter.allow: an empty set does not restrict. */
  predicate Allows(f: Filter, t: Target) {
    (f.hosts == {} && f.ports == {}) ||
    (t.Address? && (f.hosts == {} || t.host in f.hosts)
     && (f.ports == {} || (t.port.Some? && t.port.value in f.ports)))
  }

  datatype Capture = Capture(epoch: Epoch, captureId: string, server: string, filter: Filter)

  datatype Gate = Gate(epoch: Epoch, current: Option<Capture>)

  /** Start: the same capture again changes nothing; otherwise a new epoch begins. */
  function Started(g: Gate, captureId: string, server: string, filter: Filter): Gate {
    if g.current.Some? && g.current.value.captureId == captureId && g.current.value.server == server then g
    else Gate(g.epoch + 1, Some(Capture(g.epoch + 1, captureId, server, filter)))
  }

  datatype Kind = Open | Data(toServer: bool) | Close

  /** An event sent: on the stream of capture `sink`, under the connection id of `epoch`. */
  datatype Sent = Sent(sink: Epoch, epoch: Epoch, what: Kind)

  /** relayConn: the epoch last declared (0: none), and whether its open was sent. */
  datatype Conn = Conn(epoch: Epoch, declared: bool)

  // ---- one connection -----------------------------------------------------------------

  predicate Reports(st: Option<Capture>, t: Target) {
    st.Some? && Allows(st.value.filter, t)
  }

  /** begin: the connection afterwards, and the open it sends, if any. */
  function Begun(c: Conn, st: Option<Capture>, t: Target): (Conn, seq<Sent>) {
    if !Reports(st, t) then (c, [])
    else
      var e := st.value.epoch;
      (Conn(e, true), if c.epoch != e || !c.declared then [Sent(e, e, Open)] else [])
  }

  function Ended(c: Conn, st: Option<Capture>): (Conn, seq<Sent>) {
    if st.None? || c.epoch != st.value.epoch || !c.declared then (c, [])
    else (c.(declared := false), [Sent(st.value.epoch, c.epoch, Close)])
  }

  // ---- the two forwarders and the connection's own goroutine --------------------------

  /** `Loaded`: has read the current capture; `Sending`: begin returned this epoch's sink. */
  datatype Worker = Reading | Loaded(st: Option<Capture>) | Sending(epoch: Epoch) | Done

  datatype Main = Starting | MainLoaded(st: Option<Capture>) | Running | Ending(st: Option<Capture>) | Over

  /** `begins` are the epochs of the begin calls that reported, in order. */
  datatype System = System(gate: Gate, target: Target, conn: Conn, main: Main,
                           up: Worker, down: Worker, log: seq<Sent>, begins: seq<Epoch>)
  {
    function Of(toServer: bool): Worker {
      if toServer then up else down
    }

    function WithWorker(toServer: bool, w: Worker): System {
      if toServer then this.(up := w) else this.(down := w)
    }
  }

  function Init(target: Target): System {
    System(Gate(0, None), target, Conn(0, false), Starting, Reading, Reading, [], [])
  }

  datatype Step =
    | GateStarts(captureId: string, server: string, filter: Filter)
    | GateStops
    | MainLoads
    | MainBegins
    | Loads(toServer: bool)          // a chunk was read, and the current capture
    | Begins(toServer: bool)
    | Sends(toServer: bool)
    | Stops(toServer: bool)          // end of stream, or the chunk could not be written
    | MainEnds

  predicate Enabled(s: System, step: Step) {
    match step
    case GateStarts(_, _, _) => true
    case GateStops => true
    case MainLoads => s.main.Starting? || (s.main.Running? && s.up.Done? && s.down.Done?)
    case MainBegins => s.main.MainLoaded?
    case Loads(d) => s.main.Running? && s.Of(d).Reading?
    case Begins(d) => s.main.Running? && s.Of(d).Loaded?
    case Sends(d) => s.main.Running? && s.Of(d).Sending?
    case Stops(d) => s.main.Running? && !s.Of(d).Loaded? && !s.Of(d).Done?
    case MainEnds => s.main.Ending?
  }

  function Begin(s: System, st: Option<Capture>): System {
    var (conn, sent) := Begun(s.conn, st, s.target);
    s.(conn := conn, log := s.log + sent, begins := if Reports(st, s.target) then s.begins + [st.value.epoch] else s.begins)
  }

  function Apply(s: System, step: Step): System
    requires Enabled(s, step)
  {
    match step
    case GateStarts(id, server, filter) => s.(gate := Started(s.gate, id, server, filter))
    case GateStops => s.(gate := s.gate.(current := None))
    case MainLoads => s.(main := if s.main.Starting? then MainLoaded(s.gate.current) else Ending(s.gate.current))
    case MainBegins => Begin(s, s.main.st).(main := Running)
    case Loads(d) => s.WithWorker(d, Loaded(s.gate.current))
    case Begins(d) =>
      var st := s.Of(d).st;
      Begin(s, st).WithWorker(d, if Reports(st, s.target) then Sending(st.value.epoch) else Reading)
    case Sends(d) =>
      var e := s.Of(d).epoch;
      s.(log := s.log + [Sent(e, e, Data(d))]).WithWorker(d, Reading)
    case Stops(d) => s.WithWorker(d, Done)
    case MainEnds =>
      var (conn, sent) := Ended(s.conn, s.main.st);
      s.(conn := conn, log := s.log + sent, main := Over)
  }

  // ---- what every interleaving keeps --------------------------------------------------

  predicate Opened(log: seq<Sent>, n: nat, e: Epoch)
    requires n <= |log|
  {
    exists j :: 0 <= j < n && log[j] == Sent(e, e, Open)
  }

  /** Events stay on their own epoch's stream; data and close come after an open of theirs. */
  predicate WellFormed(log: seq<Sent>) {
    && (forall i | 0 <= i < |log| :: log[i].sink == log[i].epoch)
    && (forall i | 0 <= i < |log| && !log[i].what.Open? :: Opened(log, i, log[i].epoch))
    && (forall i | 0 <= i < |log| && log[i].what.Close? :: i == |log| - 1)
  }

  predicate SinkKnown(log: seq<Sent>, w: Worker) {
    w.Sending? ==> Opened(log, |log|, w.epoch)
  }

  predicate NotClosed(log: seq<Sent>) {
    forall i | 0 <= i < |log| :: !log[i].what.Close?
  }

  /** The opens sent: one whenever the epoch of a begin differs from the one before. */
  function Heads(begins: seq<Epoch>): seq<Epoch> {
    if begins == [] then []
    else if |begins| > 1 && Last(Front(begins)) == Last(begins) then Heads(Front(begins))
    else Heads(Front(begins)) + [Last(begins)]
  }

  function Opens(log: seq<Sent>): seq<Epoch> {
    if log == [] then []
    else Opens(Front(log)) + if Last(log).what.Open? then [Last(log).epoch] else []
  }

  predicate Numbered(s: System) {
    && (s.gate.current.Some? ==> 0 < s.gate.current.value.epoch <= s.gate.epoch)
    && (s.main.MainLoaded? && s.main.st.Some? ==> s.main.st.value.epoch > 0)
    && (s.up.Loaded? && s.up.st.Some? ==> s.up.st.value.epoch > 0)
    && (s.down.Loaded? && s.down.st.Some? ==> s.down.st.value.epoch > 0)
  }

  /** The connection's state agrees with what it sent: one open for every new epoch begun. */
  predicate Agrees(log: seq<Sent>, c: Conn, begins: seq<Epoch>, over: bool) {
    && WellFormed(log) && (over || NotClosed(log))
    && Opens(log) == Heads(begins)
    && (c.declared ==> Opened(log, |log|, c.epoch))
    && (begins == [] ==> !c.declared)
    && (begins != [] ==> c.epoch == Last(begins) && (over || c.declared))
  }

  ghost predicate Inv(s: System) {
    && Agrees(s.log, s.conn, s.begins, s.main.Over?) && Numbered(s)
    && (!s.main.Running? ==> !s.up.Sending? && !s.down.Sending?)
    && SinkKnown(s.log, s.up) && SinkKnown(s.log, s.down)
  }

  lemma {:induction false} LogGrows(log: seq<Sent>, e: Sent)
    requires WellFormed(log) && NotClosed(log) && e.sink == e.epoch
    requires !e.what.Open? ==> Opened(log, |log|, e.epoch)
    ensures WellFormed(log + [e]) && (!e.what.Close? ==> NotClosed(log + [e]))
    ensures forall x :: Opened(log, |log|, x) ==> Opened(log + [e], |log| + 1, x)
    ensures e.what.Open? ==> Opened(log + [e], |log| + 1, e.epoch)
    ensures Opens(log + [e]) == Opens(log) + if e.what.Open? then [e.epoch] else []
  {
    assert Front(log + [e]) == log;
    forall n: nat, x | n <= |log| && Opened(log, n, x)
      ensures Opened(log + [e], n, x) && Opened(log + [e], |log| + 1, x)
    {
      var j :| 0 <= j < n && log[j] == Sent(x, x, Open);
      assert (log + [e])[j] == log[j];
    }
    assert (log + [e])[|log|] == e;
  }

  lemma {:induction false} BeginAgrees(log: seq<Sent>, c: Conn, begins: seq<Epoch>, e: Epoch, after: seq<Sent>)
    requires Agrees(log, c, begins, false) && e > 0
    requires after == log + if c.epoch != e || !c.declared then [Sent(e, e, Open)] else []
    ensures Agrees(after, Conn(e, true), begins + [e], false)
  {
    assert Front(begins + [e]) == begins;
    if c.epoch != e || !c.declared {
      LogGrows(log, Sent(e, e, Open));
    } else {
      assert log + [] == log;
    }
  }

  lemma {:induction false} KeepsOpened(log: seq<Sent>, after: seq<Sent>)
    requires log <= after
    ensures forall x :: Opened(log, |log|, x) ==> Opened(after, |after|, x)
  {
    forall x | Opened(log, |log|, x)
      ensures Opened(after, |after|, x)
    {
      var j :| 0 <= j < |log| && log[j] == Sent(x, x, Open);
      assert after[j] == log[j];
    }
  }

  lemma {:induction false} BeginKeeps(s: System, st: Option<Capture>)
    requires Inv(s) && !s.main.Over? && (st.Some? ==> st.value.epoch > 0)
    ensures var t := Begin(s, st);
            && Agrees(t.log, t.conn, t.begins, false) && SinkKnown(t.log, s.up) && SinkKnown(t.log, s.down)
            && (Reports(st, s.target) ==> Opened(t.log, |t.log|, st.value.epoch))
  {
    KeepsOpened(s.log, Begin(s, st).log);
    if Reports(st, s.target) {
      BeginAgrees(s.log, s.conn, s.begins, st.value.epoch, Begin(s, st).log);
    } else {
      assert s.log + [] == s.log;
    }
  }

  lemma {:induction false} EndKeeps(s: System)
    requires Inv(s) && Enabled(s, MainEnds)
    ensures Inv(Apply(s, MainEnds))
  {
    if Ended(s.conn, s.main.st).1 == [] {
      assert s.log + [] == s.log;
    } else {
      LogGrows(s.log, Sent(s.conn.epoch, s.conn.epoch, Close));
    }
  }

  /** The steps that send nothing. */
  lemma {:induction false} QuietKeeps(s: System, step: Step)
    requires Inv(s) && Enabled(s, step)
    requires !step.MainBegins? && !step.Begins? && !step.Sends? && !step.MainEnds?
    ensures Inv(Apply(s, step))
  {
    assert Apply(s, step).log == s.log;
  }

  lemma {:induction false} StepKeeps(s: System, step: Step)
    requires Inv(s) && Enabled(s, step)
    ensures Inv(Apply(s, step))
  {
    match step
    case MainBegins => BeginKeeps(s, s.main.st);
    case Begins(d) => BeginKeeps(s, s.Of(d).st);
    case Sends(d) => LogGrows(s.log, Sent(s.Of(d).epoch, s.Of(d).epoch, Data(d)));
    case MainEnds => EndKeeps(s);
    case _ => QuietKeeps(s, step);
  }

  predicate Legal(s: System, run: seq<Step>)
    decreases |run|
  {
    run == [] || (Enabled(s, run[0]) && Legal(Apply(s, run[0]), run[1..]))
  }

  function Run(s: System, run: seq<Step>): System
    requires Legal(s, run)
    decreases |run|
  {
    if run == [] then s else Run(Apply(s, run[0]), run[1..])
  }

  lemma {:induction false} RunKeeps(s: System, run: seq<Step>)
    requires Inv(s) && Legal(s, run)
    ensures Inv(Run(s, run))
    decreases |run|
  {
    if run != [] {
      StepKeeps(s, run[0]);
      RunKeeps(Apply(s, run[0]), run[1..]);
    }
  }

  /**
   * However the forwarders and the capture switches interleave: every event goes out on its
   * own epoch's stream; every data or close event comes after an open of the same epoch on
   * that stream; and a close is the last event of the connection.
   */
  lemma EventsStayInTheirEpoch(target: Target, run: seq<Step>, i: nat)
    requires Legal(Init(target), run) && i < |Run(Init(target), run).log|
    ensures var log := Run(Init(target), run).log;
            && log[i].sink == log[i].epoch
            && (!log[i].what.Open? ==> exists j :: 0 <= j < i && log[j] == Sent(log[i].sink, log[i].epoch, Open))
            && (log[i].what.Close? ==> i == |log| - 1)
  {
    assert Inv(Init(target));
    RunKeeps(Init(target), run);
    var log := Run(Init(target), run).log;
    assert !log[i].what.Open? ==> Opened(log, i, log[i].epoch);
  }

  // ---- how many opens -----------------------------------------------------------------

  predicate Distinct(es: seq<Epoch>) {
    forall i, j | 0 <= i < j < |es| :: es[i] != es[j]
  }

  /** No epoch comes back after another one. */
  predicate Contiguous(es: seq<Epoch>) {
    forall i, j, k | 0 <= i < j < k < |es| && es[i] == es[k] :: es[j] == es[i]
  }

  predicate Nondecreasing(es: seq<Epoch>) {
    forall i, j | 0 <= i < j < |es| :: es[i] <= es[j]
  }

  lemma {:induction false} HeadsMembers(es: seq<Epoch>, e: Epoch)
    ensures e in Heads(es) <==> e in es
    ensures es != [] ==> Heads(es) != [] && Last(Heads(es)) == Last(es)
  {
    if es != [] {
      HeadsMembers(Front(es), e);
      assert es == Front(es) + [Last(es)];
      if |es| > 1 {
        HeadsMembers(Front(es), Last(es));
      }
    }
  }

  lemma {:induction false} DistinctHeadsIff(es: seq<Epoch>)
    ensures Distinct(Heads(es)) <==> Contiguous(es)
  {
    if es != [] {
      var front, e := Front(es), Last(es);
      DistinctHeadsIff(front);
      assert forall i | 0 <= i < |front| :: es[i] == front[i];
      HeadsMembers(front, e);
      if |es| > 1 && Last(front) == e {
        SameEnd(front, e);
      } else {
        NewEnd(front, e);
      }
      assert es == front + [e];
    }
  }

  lemma {:induction false} SameEnd(front: seq<Epoch>, e: Epoch)
    requires front != [] && Last(front) == e
    ensures Contiguous(front + [e]) <==> Contiguous(front)
  {
    var es := front + [e];
    if Contiguous(front) {
      forall i, j, k | 0 <= i < j < k < |es| && es[i] == es[k]
        ensures es[j] == es[i]
      {
        if k == |front| && j < |front| - 1 {
          assert front[i] == front[|front| - 1];
        }
      }
    } else {
      var i, j, k :| 0 <= i < j < k < |front| && front[i] == front[k] && front[j] != front[i];
      assert es[i] == es[k] && es[j] != es[i];
    }
  }

  lemma {:induction false} NewEnd(front: seq<Epoch>, e: Epoch)
    requires front != [] ==> Last(front) != e
    ensures Contiguous(front + [e]) <==> Contiguous(front) && e !in front
    ensures Distinct(Heads(front) + [e]) <==> Distinct(Heads(front)) && e !in Heads(front)
  {
    var es, heads := front + [e], Heads(front) + [e];
    if e in front {
      var i :| 0 <= i < |front| && front[i] == e;
      assert es[i] == es[|front|] && es[|front| - 1] != es[i];
    }
    if !Contiguous(front) {
      var i, j, k :| 0 <= i < j < k < |front| && front[i] == front[k] && front[j] != front[i];
      assert es[i] == es[k] && es[j] != es[i];
    }
    if e in Heads(front) {
      var i :| 0 <= i < |Heads(front)| && Heads(front)[i] == e;
      assert heads[i] == heads[|Heads(front)|];
    }
    if !Distinct(Heads(front)) {
      var i, j :| 0 <= i < j < |Heads(front)| && Heads(front)[i] == Heads(front)[j];
      assert heads[i] == heads[j];
    }
  }

  /**
   * Exactly one open is sent for every epoch in which the connection reported, if and only
   * if no epoch came back after another one in the order of the begin calls: a forwarder
   * that acts late on an old capture makes both epochs declare the connection again.
   */
  lemma OneOpenPerEpochIff(target: Target, run: seq<Step>)
    requires Legal(Init(target), run)
    ensures var s := Run(Init(target), run);
            && (forall e :: e in Opens(s.log) <==> e in s.begins)
            && (Distinct(Opens(s.log)) <==> Contiguous(s.begins))
            && (Nondecreasing(s.begins) ==> Distinct(Opens(s.log)))
  {
    assert Inv(Init(target));
    RunKeeps(Init(target), run);
    var s := Run(Init(target), run);
    forall e
      ensures e in Opens(s.log) <==> e in s.begins
    {
      HeadsMembers(s.begins, e);
    }
    DistinctHeadsIff(s.begins);
  }

  // ---- the connection as an object ----------------------------------------------------

  class RelayConn {
    const target: Target
    var epoch: Epoch
    var declared: bool
    ghost var log: seq<Sent>

    constructor (target: Target)
      ensures this.target == target && Value() == Conn(0, false) && log == []
    {
      this.target, epoch, declared, log := target, 0, false, [];
    }

    function Value(): Conn
      reads this
    {
      Conn(epoch, declared)
    }

    /** Declares the connection in the capture if needed; returns the sink to use, if any. */
    method Begin(st: Option<Capture>) returns (sink: Option<Epoch>)
      modifies this
      ensures (Value(), log) == (Begun(old(Value()), st, target).0, old(log) + Begun(old(Value()), st, target).1)
      ensures sink == if Reports(st, target) then Some(st.value.epoch) else None
    {
      if st.None? || !Allows(st.value.filter, target) {
        assert log + [] == log;
        return None;
      }
      var e := st.value.epoch;
      if epoch != e {
        epoch := e;
        declared := false;
      }
      if !declared {
        declared := true;
        log := log + [Sent(e, e, Open)];
      } else {
        assert log + [] == log;
      }
      return Some(e);
    }

    method End(st: Option<Capture>)
      modifies this
      ensures (Value(), log) == (Ended(old(Value()), st).0, old(log) + Ended(old(Value()), st).1)
    {
      assert log + [] == log;
      if st.None? {
        return;
      }
      if epoch != st.value.epoch || !declared {
        return;
      }
      declared := false;
      log := log + [Sent(st.value.epoch, epoch, Close)];
    }
  }
}
