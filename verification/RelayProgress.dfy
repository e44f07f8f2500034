/**
 * pkg/agent/agent.go, which chunks a relayed connection reports: those it reads while a
 * capture is current whose filter lets the connection through, each once, in order and in
 * its own direction, on the stream of that capture; and no others.
 */
module RelayProgress {
  import opened Seqs
  import opened RelayEpochs

  // ---- what should be reported ------------------------------------------------------------

  /** The gate after a step: only starting and stopping captures changes it. */
  function GateAfter(g: Gate, step: Step): Gate {
    match step
    case GateStarts(id, server, filter) => Started(g, id, server, filter)
    case GateStops => g.(current := None)
    case _ => g
  }

  /**
   * The chunks forwarded in direction `d` that were read under a capture reporting them, as
   * the epochs of these captures. `held`: the capture under which the last chunk was read.
   */
  function Chunks(target: Target, g: Gate, held: Option<Capture>, run: seq<Step>, d: bool): seq<Epoch>
    decreases |run|
  {
    if run == [] then
      []
    else
      (if run[0] == Sends(d) && Reports(held, target) then [held.value.epoch] else [])
      + Chunks(target, GateAfter(g, run[0]), if run[0] == Loads(d) then g.current else held, run[1..], d)
  }

  /** The data events of direction `d`, as the streams they went to. */
  function DataSent(log: seq<Sent>, d: bool): seq<Epoch> {
    if log == [] then [] else DataSent(Front(log), d) + if Last(log).what == Data(d) then [Last(log).sink] else []
  }

  lemma {:induction false} DataSentMore(log: seq<Sent>, more: seq<Sent>, d: bool)
    ensures DataSent(log + more, d) == DataSent(log, d) + DataSent(more, d)
    decreases |more|
  {
    if more == [] {
      assert log + more == log;
    } else {
      assert Front(log + more) == log + Front(more) && Last(log + more) == Last(more);
      DataSentMore(log, Front(more), d);
    }
  }

  lemma DataSentOne(e: Sent, d: bool)
    ensures DataSent([e], d) == if e.what == Data(d) then [e.sink] else []
  {
    assert Front([e]) == [];
  }

  /** What the forwarder of direction `d` has in hand is the chunk read under `held`. */
  predicate Holds(s: System, held: Option<Capture>, d: bool) {
    match s.Of(d)
    case Loaded(st) => st == held
    case Sending(e) => Reports(held, s.target) && held.value.epoch == e
    case _ => true
  }

  lemma BeginsSendNoData(s: System, st: Option<Capture>, d: bool)
    ensures DataSent(Begin(s, st).log, d) == DataSent(s.log, d)
  {
    var more := Begun(s.conn, st, s.target).1;
    DataSentMore(s.log, more, d);
    if more != [] {
      DataSentOne(more[0], d);
      assert more == [more[0]];
    }
    assert DataSent(s.log, d) + [] == DataSent(s.log, d);
  }

  lemma EndSendsNoData(s: System, d: bool)
    requires Enabled(s, MainEnds)
    ensures DataSent(Apply(s, MainEnds).log, d) == DataSent(s.log, d)
  {
    var more := Ended(s.conn, s.main.st).1;
    DataSentMore(s.log, more, d);
    if more != [] {
      DataSentOne(more[0], d);
      assert more == [more[0]];
    }
    assert DataSent(s.log, d) + [] == DataSent(s.log, d);
  }

  lemma {:induction false} SendsData(s: System, to: bool, d: bool)
    requires Enabled(s, Sends(to))
    ensures DataSent(Apply(s, Sends(to)).log, d) == DataSent(s.log, d) + if to == d then [s.Of(d).epoch] else []
  {
    var e := Sent(s.Of(to).epoch, s.Of(to).epoch, Data(to));
    DataSentMore(s.log, [e], d);
    DataSentOne(e, d);
  }

  lemma {:induction false} StepSends(s: System, step: Step, held: Option<Capture>, d: bool)
    requires Enabled(s, step) && Holds(s, held, d)
    ensures var t := Apply(s, step);
            DataSent(t.log, d) == DataSent(s.log, d)
              + if step == Sends(d) && Reports(held, s.target) then [held.value.epoch] else []
  {
    assert DataSent(s.log, d) + [] == DataSent(s.log, d);
    match step
    case MainBegins => BeginsSendNoData(s, s.main.st, d);
    case Begins(to) => BeginsSendNoData(s, s.Of(to).st, d);
    case Sends(to) => SendsData(s, to, d);
    case MainEnds => EndSendsNoData(s, d);
    case _ => assert Apply(s, step).log == s.log;
  }

  lemma {:induction false} StepHolds(s: System, step: Step, held: Option<Capture>, d: bool)
    requires Enabled(s, step) && Holds(s, held, d)
    ensures var t := Apply(s, step);
            && t.gate == GateAfter(s.gate, step) && t.target == s.target
            && Holds(t, if step == Loads(d) then s.gate.current else held, d)
  {
  }

  lemma {:induction false} RunSends(s: System, run: seq<Step>, held: Option<Capture>, d: bool)
    requires Legal(s, run) && Holds(s, held, d)
    ensures DataSent(Run(s, run).log, d) == DataSent(s.log, d) + Chunks(s.target, s.gate, held, run, d)
    decreases |run|
  {
    if run == [] {
      assert DataSent(s.log, d) + [] == DataSent(s.log, d);
    } else {
      var t, now := Apply(s, run[0]), if run[0] == Loads(d) then s.gate.current else held;
      StepHolds(s, run[0], held, d);
      StepSends(s, run[0], held, d);
      RunSends(t, run[1..], now, d);
      Associates(DataSent(s.log, d), if run[0] == Sends(d) && Reports(held, s.target) then [held.value.epoch] else [],
                 Chunks(s.target, t.gate, now, run[1..], d));
    }
  }

  /**
   * Over every interleaving, the data events of each direction are exactly the chunks forwarded
   * in that direction that were read under a reporting capture, in order, each on the stream of
   * the capture it was read under.
   */
  lemma DataIsExact(target: Target, run: seq<Step>, d: bool)
    requires Legal(Init(target), run)
    ensures DataSent(Run(Init(target), run).log, d) == Chunks(target, Gate(0, None), None, run, d)
  {
    RunSends(Init(target), run, None, d);
    assert [] + Chunks(target, Gate(0, None), None, run, d) == Chunks(target, Gate(0, None), None, run, d);
  }

  // ---- no reported chunk is skipped -------------------------------------------------------

  /** A step of the forwarder of direction `d`. */
  predicate IsOf(step: Step, d: bool) {
    step == Loads(d) || step == Begins(d) || step == Sends(d) || step == Stops(d)
  }

  /** Between reading a chunk and the next one: where the forwarder is, given whether it has sent. */
  predicate Midway(s: System, st: Option<Capture>, d: bool, sent: bool) {
    if sent then
      s.Of(d).Reading? || s.Of(d).Done?
    else
      s.Of(d) == Loaded(st) || s.Of(d).Done?
      || s.Of(d) == if Reports(st, s.target) then Sending(st.value.epoch) else Reading
  }

  lemma {:induction false} MidwayStep(s: System, step: Step, st: Option<Capture>, d: bool, sent: bool)
    requires Midway(s, st, d, sent) && Enabled(s, step) && step != Loads(d)
    requires sent ==> Reports(st, s.target)
    ensures Apply(s, step).target == s.target
    ensures step == Sends(d) ==> Reports(st, s.target)
    ensures Midway(Apply(s, step), st, d, sent || step == Sends(d))
  {
  }

  lemma {:induction false} MidwayRun(s: System, run: seq<Step>, st: Option<Capture>, d: bool, sent: bool)
    requires Midway(s, st, d, sent) && Legal(s, run) && Loads(d) !in run
    requires sent ==> Reports(st, s.target)
    ensures Run(s, run).target == s.target
    ensures Midway(Run(s, run), st, d, sent || Sends(d) in run)
    ensures sent || Sends(d) in run ==> Reports(st, s.target)
    decreases |run|
  {
    if run != [] {
      MidwayStep(s, run[0], st, d, sent);
      MidwayRun(Apply(s, run[0]), run[1..], st, d, sent || run[0] == Sends(d));
      assert run == [run[0]] + run[1..];
    }
  }

  lemma {:induction false} RunAppend(s: System, a: seq<Step>, b: seq<Step>)
    requires Legal(s, a + b)
    ensures Legal(s, a) && Legal(Run(s, a), b) && Run(s, a + b) == Run(Run(s, a), b)
    decreases |a|
  {
    if a == [] {
      assert a + b == b;
    } else {
      assert (a + b)[1..] == a[1..] + b;
      RunAppend(Apply(s, a[0]), a[1..], b);
    }
  }

  /**
   * Whatever the other goroutines do: between two chunks of one direction a data event is sent
   * if and only if, when the first of them was read, a capture was current whose filter lets
   * the connection through.
   */
  lemma ChunkIsReportedIff(s: System, mid: seq<Step>, d: bool)
    requires Loads(d) !in mid && Legal(s, [Loads(d)] + mid + [Loads(d)])
    ensures Sends(d) in mid <==> Reports(s.gate.current, s.target)
  {
    var t := Apply(s, Loads(d));
    assert [Loads(d)] + mid + [Loads(d)] == [Loads(d)] + (mid + [Loads(d)]);
    assert ([Loads(d)] + (mid + [Loads(d)]))[1..] == mid + [Loads(d)];
    RunAppend(t, mid, [Loads(d)]);
    MidwayRun(t, mid, s.gate.current, d, false);
    assert Run(t, mid).Of(d).Reading?;
  }

  /** A chunk read under a reporting capture can be sent at once. */
  lemma ReportedChunkCanBeSent(s: System, d: bool)
    requires Enabled(s, Loads(d)) && Reports(s.gate.current, s.target)
    ensures Legal(s, [Loads(d), Begins(d), Sends(d)])
    ensures var t := Run(s, [Loads(d), Begins(d), Sends(d)]);
            t.log != [] && Last(t.log) == Sent(s.gate.current.value.epoch, s.gate.current.value.epoch, Data(d))
            && s.log <= t.log && t.Of(d).Reading?
  {
    var st := s.gate.current;
    var e := st.value.epoch;
    var s1 := Apply(s, Loads(d));
    assert s1.Of(d) == Loaded(st);
    var s2 := Apply(s1, Begins(d));
    assert s2.Of(d) == Sending(e) && s2.main == s.main && s.log <= s2.log;
    var s3 := Apply(s2, Sends(d));
    assert s3.log == s2.log + [Sent(e, e, Data(d))];
    ThreeSteps(s, Loads(d), Begins(d), Sends(d));
  }

  lemma ThreeSteps(s: System, a: Step, b: Step, c: Step)
    requires Enabled(s, a) && Enabled(Apply(s, a), b) && Enabled(Apply(Apply(s, a), b), c)
    ensures Legal(s, [a, b, c]) && Run(s, [a, b, c]) == Apply(Apply(Apply(s, a), b), c)
  {
    assert [a, b, c][1..] == [b, c] && [b, c][1..] == [c] && [c][1..] == [];
    assert Legal(Apply(Apply(s, a), b), [c]) && Legal(Apply(s, a), [b, c]);
    assert Run(Apply(Apply(s, a), b), [c]) == Apply(Apply(Apply(s, a), b), c);
  }

  // ---- outside the filter -----------------------------------------------------------------

  /** An empty set restricts nothing; a target that is no address passes only an empty filter. */
  lemma AllowsIff(f: Filter, host: string, port: Option<int>)
    ensures Allows(f, Address(host, port))
            <==> (f.hosts != {} ==> host in f.hosts) && (f.ports != {} ==> port.Some? && port.value in f.ports)
    ensures Allows(f, Unparsable) <==> f == Filter({}, {})
  {
  }

  predicate Silent(s: System) {
    && s.log == [] && !s.conn.declared
    && !Reports(s.gate.current, s.target)
    && (s.main.MainLoaded? ==> !Reports(s.main.st, s.target))
    && !s.up.Sending? && (s.up.Loaded? ==> !Reports(s.up.st, s.target))
    && !s.down.Sending? && (s.down.Loaded? ==> !Reports(s.down.st, s.target))
  }

  lemma {:induction false} SilentStep(s: System, step: Step)
    requires Silent(s) && Enabled(s, step) && (step.GateStarts? ==> !Allows(step.filter, s.target))
    ensures Silent(Apply(s, step)) && Apply(s, step).target == s.target
  {
  }

  lemma {:induction false} SilentRun(s: System, run: seq<Step>)
    requires Silent(s) && Legal(s, run)
    requires forall step | step in run && step.GateStarts? :: !Allows(step.filter, s.target)
    ensures Silent(Run(s, run))
    decreases |run|
  {
    if run != [] {
      SilentStep(s, run[0]);
      SilentRun(Apply(s, run[0]), run[1..]);
    }
  }

  /** A connection that no capture's filter lets through sends nothing at all. */
  lemma FilteredOutIsSilent(target: Target, run: seq<Step>)
    requires Legal(Init(target), run)
    requires forall step | step in run && step.GateStarts? :: !Allows(step.filter, target)
    ensures Run(Init(target), run).log == []
  {
    SilentRun(Init(target), run);
  }

  // ---- the end ----------------------------------------------------------------------------

  /**
   * When the connection ends it closes what it opened, exactly when it has reported and the
   * capture current then is the one it declared itself to last.
   */
  lemma ClosesIff(target: Target, run: seq<Step>)
    requires Legal(Init(target), run) && Enabled(Run(Init(target), run), MainEnds)
    ensures var s := Run(Init(target), run);
            var closes := s.begins != [] && s.main.st.Some? && s.main.st.value.epoch == Last(s.begins);
            Apply(s, MainEnds).log
            == s.log + if closes then [Sent(Last(s.begins), Last(s.begins), Close)] else []
  {
    assert RelayEpochs.Inv(Init(target));
    RunKeeps(Init(target), run);
  }

  // ---- captures and their numbers ---------------------------------------------------------

  /** The captures started so far, the one with epoch n at position n - 1. */
  predicate Numbers(g: Gate, captures: seq<Capture>) {
    && g.epoch == |captures|
    && (forall i | 0 <= i < |captures| :: captures[i].epoch == i + 1)
    && (g.current.Some? ==> captures != [] && g.current.value == Last(captures))
  }

  lemma {:induction false} StartNumbers(g: Gate, captures: seq<Capture>, id: string, server: string, filter: Filter)
    requires Numbers(g, captures)
    ensures var t := Started(g, id, server, filter);
            && t.current.Some? && t.current.value.captureId == id && t.current.value.server == server
            && if g.current.Some? && g.current.value.captureId == id && g.current.value.server == server then t == g
               else t.current.value.filter == filter && Numbers(t, captures + [t.current.value])
  {
  }

  lemma {:induction false} RunNumbers(s: System, run: seq<Step>, captures: seq<Capture>) returns (all: seq<Capture>)
    requires Legal(s, run) && Numbers(s.gate, captures)
    ensures Numbers(Run(s, run).gate, all) && captures <= all
    decreases |run|
  {
    if run == [] {
      all := captures;
    } else {
      var t := Apply(s, run[0]);
      var more := captures;
      if run[0].GateStarts? {
        StartNumbers(s.gate, captures, run[0].captureId, run[0].server, run[0].filter);
        if t.gate != s.gate {
          more := captures + [t.gate.current.value];
        }
      } else {
        assert t.gate == GateAfter(s.gate, run[0]);
      }
      all := RunNumbers(t, run[1..], more);
    }
  }

  /**
   * An epoch names one capture: whenever two captures that are current at different times of a
   * run have the same epoch, they are the same capture. One that is started is current afterwards.
   */
  lemma EpochNamesOneCapture(target: Target, a: seq<Step>, b: seq<Step>)
    requires Legal(Init(target), a) && Legal(Run(Init(target), a), b)
    ensures var first, second := Run(Init(target), a).gate, Run(Run(Init(target), a), b).gate;
            && (first.current.Some? && second.current.Some? && first.current.value.epoch == second.current.value.epoch ==>
                  first.current == second.current)
            && forall id, server, filter :: var t := Started(second, id, server, filter).current;
                 t.Some? && t.value.captureId == id && t.value.server == server
  {
    var captures := RunNumbers(Init(target), a, []);
    var all := RunNumbers(Run(Init(target), a), b, captures);
    assert |captures| == |all| ==> captures == all;
  }

  // ---- a whole connection -----------------------------------------------------------------

  ghost predicate Reaches(s: System, t: System) {
    exists run :: Legal(s, run) && Run(s, run) == t
  }

  lemma {:induction false} RunSnoc(s: System, run: seq<Step>, step: Step)
    requires Legal(s, run) && Enabled(Run(s, run), step)
    ensures Legal(s, run + [step]) && Run(s, run + [step]) == Apply(Run(s, run), step)
    decreases |run|
  {
    if run == [] {
      assert [step][1..] == [] && run + [step] == [step];
    } else {
      assert (run + [step])[1..] == run[1..] + [step];
      RunSnoc(Apply(s, run[0]), run[1..], step);
    }
  }

  lemma Next(s: System, t: System, step: Step)
    requires Reaches(s, t) && Enabled(t, step)
    ensures Reaches(s, Apply(t, step))
  {
    var run :| Legal(s, run) && Run(s, run) == t;
    RunSnoc(s, run, step);
  }

  /** A connection accepted while a capture is current declares itself at once, if the filter lets it through. */
  lemma {:induction false} ConnectionStarts(target: Target, id: string, server: string, filter: Filter) returns (t: System)
    ensures Reaches(Init(target), t) && t.main.Running? && t.up.Reading? && t.down.Reading? && t.target == target
    ensures t.gate == Gate(1, Some(Capture(1, id, server, filter)))
    ensures if Allows(filter, target) then t.log == [Sent(1, 1, Open)] && t.conn == Conn(1, true)
            else t.log == [] && t.conn == Conn(0, false)
  {
    var s := Init(target);
    assert Legal(s, []) && Run(s, []) == s;
    var t1 := Apply(s, GateStarts(id, server, filter));
    Next(s, s, GateStarts(id, server, filter));
    var t2 := Apply(t1, MainLoads);
    Next(s, t1, MainLoads);
    t := Apply(t2, MainBegins);
    Next(s, t2, MainBegins);
  }

  /** A connection that forwards one chunk under a capture that reports it: opened, its data, closed, on that capture's stream. */
  lemma {:induction false} WholeConnection(target: Target, id: string, server: string, filter: Filter, d: bool) returns (t: System)
    requires Allows(filter, target)
    ensures Reaches(Init(target), t) && t.main.Over?
    ensures t.log == [Sent(1, 1, Open), Sent(1, 1, Data(d)), Sent(1, 1, Close)]
  {
    var s := Init(target);
    var t0 := ConnectionStarts(target, id, server, filter);
    var t1 := SendsOne(s, t0, d);
    t := EndsConnection(s, t1, d);
  }

  lemma {:induction false} SendsOne(s: System, t: System, d: bool) returns (t': System)
    requires Reaches(s, t) && Enabled(t, Loads(d)) && Reports(t.gate.current, t.target)
    requires t.conn == Conn(t.gate.current.value.epoch, true)
    ensures Reaches(s, t') && t' == t.(log := t.log + [Sent(t.conn.epoch, t.conn.epoch, Data(d))], begins := t'.begins)
  {
    var t1 := Apply(t, Loads(d));
    Next(s, t, Loads(d));
    var t2 := Apply(t1, Begins(d));
    Next(s, t1, Begins(d));
    assert t2.log == t.log + [] == t.log;
    t' := Apply(t2, Sends(d));
    Next(s, t2, Sends(d));
  }

  lemma {:induction false} EndsConnection(s: System, t: System, d: bool) returns (t': System)
    requires Reaches(s, t) && t.main.Running? && t.up.Reading? && t.down.Reading?
    requires t.gate.current.Some? && t.conn == Conn(t.gate.current.value.epoch, true)
    ensures Reaches(s, t') && t'.main.Over? && t'.log == t.log + [Sent(t.conn.epoch, t.conn.epoch, Close)]
  {
    var t1 := Apply(t, Stops(d));
    Next(s, t, Stops(d));
    var t2 := Apply(t1, Stops(!d));
    Next(s, t1, Stops(!d));
    var t3 := Apply(t2, MainLoads);
    Next(s, t2, MainLoads);
    t' := Apply(t3, MainEnds);
    Next(s, t3, MainEnds);
  }
}
