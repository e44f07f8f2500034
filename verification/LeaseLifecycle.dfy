/**
 * cmd/gt-pipeline/proxy_lease.go, what each operation achieves when nothing interferes: a
 * lease is created, captured on, stopped and released, with exactly the ports it needs, and
 * every port goes back. From any state the service can be in.
 */
module LeaseLifecycle {
  import opened Seqs
  import PortRange
  import opened ProxyLeases
  import opened LeaseSafety
  import opened LeaseOverlap
  import opened LeaseSticky

  ghost predicate Leads(s: Service, t: Service) {
    exists run :: Legal(s, run) && Run(s, run) == t
  }

  lemma LeadsSelf(s: Service)
    ensures Leads(s, s)
  {
    assert Legal(s, []) && Run(s, []) == s;
  }

  lemma Next(s: Service, t: Service, o: Id, step: Step, u: Service)
    requires Leads(s, t) && Goes(t, o, step, u)
    ensures Leads(s, u)
  {
    var run :| Legal(s, run) && Run(s, run) == t;
    OneMoreStep(s, run, o, step, u);
  }

  lemma SetTwice(s: Service, o: Id, a: Op, b: Op)
    ensures SetOp(SetOp(s, o, a), o, b) == SetOp(s, o, b)
  {
  }

  lemma SetAndEnd(s: Service, o: Id, a: Op)
    requires o !in s.ops
    ensures EndOp(SetOp(s, o, a), o) == s
  {
    assert s.ops[o := a] - {o} == s.ops;
  }

  /** Operation `o`, at `from`, moves on to `to`. */
  lemma {:induction false} MovesTo(s: Service, t: Service, o: Id, from: Op, step: Step, to: Op)
    requires Leads(s, SetOp(t, o, from)) && Ready(t) && Enabled(SetOp(t, o, from), o, step)
    requires Apply(SetOp(t, o, from), o, step) == SetOp(SetOp(t, o, from), o, to)
    ensures Leads(s, SetOp(t, o, to))
  {
    SetTwice(t, o, from, to);
    Next(s, SetOp(t, o, from), o, step, SetOp(t, o, to));
  }

  lemma {:induction false} Begin(s: Service, o: Id, step: Step, op: Op)
    requires Ready(s) && Enabled(s, o, step) && Apply(s, o, step) == SetOp(s, o, op)
    ensures Leads(s, SetOp(s, o, op))
  {
    LeadsSelf(s);
    Next(s, s, o, step, SetOp(s, o, op));
  }

  /** Operation `o`, with nothing left to give back, ends. */
  lemma {:induction false} Finish(s: Service, t: Service, o: Id, op: Op)
    requires Leads(s, SetOp(t, o, op)) && Ready(t) && o !in t.ops && op.phase.Freeing? && op.ports == NOTHING
    ensures Leads(s, t)
  {
    SetAndEnd(t, o, op);
    Next(s, SetOp(t, o, op), o, OpEnds, t);
  }

  /** `q` is `p` with `port` marked used, if it is one. */
  predicate TookOne(p: PortRange.Ports, q: PortRange.Ports, port: int) {
    q == p.(used := p.used + (if port == 0 then {} else {port}), cursor := q.cursor)
  }

  // ---- create -----------------------------------------------------------------------------

  /**
   * An owner below the limit gets a lease whenever a control port is free: idle, with the
   * next free control port, and the agent port of the device's last lease or the next free one.
   */
  lemma {:induction false} CreateWorks(s: Service, o: Id, id: Id, owner: string, device: string, noSticky: bool) returns (t: Service)
    requires Inv(s) && o !in s.ops && id !in s.leases
    requires |OwnedBy(s, owner)| < MAX_LEASES_PER_OWNER && !PortRange.Full(s.ranges.control)
    ensures Leads(s, t) && t.ops == s.ops && t.table == s.table + {id} && id in t.leases
    ensures var ports := t.leases[id].ports;
            && t.leases == s.leases[id := Lease(owner, device, Claim(ports.agent, ports.control, 0), None)]
            && Chosen(s.ranges.agent, noSticky, StickyOf(s, StickyKey(owner, device)), ports.agent)
            && NextFree(s.ranges.control, ports.control)
            && TookOne(s.ranges.control, t.ranges.control, ports.control)
            && TookOne(s.ranges.agent, t.ranges.agent, ports.agent)
            && t.ranges.mobile == s.ranges.mobile
            && t.sticky == if device == "" then s.sticky else s.sticky[StickyKey(owner, device) := ports.agent]
  {
    var s2 := CreateHolds(s, o, owner, device, noSticky);
    t := DoCreateInsert(s2, o, id);
    CreateInserts(s, s2, o, id);
    Next(s, s2, o, CreateInsert(id), t);
  }

  lemma {:induction false} CreateHolds(s: Service, o: Id, owner: string, device: string, noSticky: bool) returns (t: Service)
    requires Inv(s) && o !in s.ops
    requires |OwnedBy(s, owner)| < MAX_LEASES_PER_OWNER && !PortRange.Full(s.ranges.control)
    ensures Leads(s, t) && Ready(t) && o in t.ops && t.ops == s.ops[o := t.ops[o]]
    ensures t.table == s.table && t.leases == s.leases && t.sticky == s.sticky && t.ranges.mobile == s.ranges.mobile
    ensures var ports := t.ops[o].ports;
            && t.ops[o] == Op(Equipped(owner, device), 0, Claim(ports.agent, ports.control, 0))
            && Chosen(s.ranges.agent, noSticky, StickyOf(s, StickyKey(owner, device)), ports.agent)
            && NextFree(s.ranges.control, ports.control)
            && TookOne(s.ranges.control, t.ranges.control, ports.control)
            && TookOne(s.ranges.agent, t.ranges.agent, ports.agent)
  {
    var op := Op(Admitted(owner, device, noSticky), 0, NOTHING);
    Begin(s, o, CreateAdmit(owner, device, noSticky), op);
    var s1 := SetOp(s, o, op);
    CreateAllocates(s1, o);
    t := DoCreateAllocate(s1, o);
    Next(s, s1, o, CreateAllocate, t);
    SetTwice(s, o, op, t.ops[o]);
  }

  lemma {:induction false} CreateInserts(s: Service, t: Service, o: Id, id: Id)
    requires o !in s.ops && o in t.ops && t.ops[o].phase.Equipped? && t.ops == s.ops[o := t.ops[o]]
    requires t.table == s.table && t.leases == s.leases && |OwnedBy(s, t.ops[o].phase.owner)| < MAX_LEASES_PER_OWNER
    ensures var op, u := t.ops[o], DoCreateInsert(t, o, id);
            && u.ops == s.ops && u.table == s.table + {id} && u.ranges == t.ranges
            && u.leases == s.leases[id := Lease(op.phase.owner, op.phase.device, op.ports, None)]
            && u.sticky == if op.phase.device == "" then t.sticky else t.sticky[StickyKey(op.phase.owner, op.phase.device) := op.ports.agent]
  {
    assert OwnedBy(t, t.ops[o].phase.owner) == OwnedBy(s, t.ops[o].phase.owner);
    assert s.ops[o := t.ops[o]] - {o} == s.ops;
  }

  lemma {:induction false} CreateAllocates(s: Service, o: Id)
    requires Ready(s) && Enabled(s, o, CreateAllocate) && s.ops[o].ports == NOTHING && !PortRange.Full(s.ranges.control)
    ensures var t := DoCreateAllocate(s, o);
            && o in t.ops && t.ops == s.ops[o := t.ops[o]]
            && t.table == s.table && t.leases == s.leases && t.sticky == s.sticky && t.ranges.mobile == s.ranges.mobile
            && var ports := t.ops[o].ports;
               && t.ops[o] == Op(Equipped(s.ops[o].phase.owner, s.ops[o].phase.device), 0, Claim(ports.agent, ports.control, 0))
               && Chosen(s.ranges.agent, s.ops[o].phase.noSticky, StickyOf(s, StickyKey(s.ops[o].phase.owner, s.ops[o].phase.device)), ports.agent)
               && NextFree(s.ranges.control, ports.control)
               && TookOne(s.ranges.control, t.ranges.control, ports.control)
               && TookOne(s.ranges.agent, t.ranges.agent, ports.agent)
  {
    AllocateChooses(s, o);
    CreateAllocateResult(s, o);
    PortRange.AllocateTakesNextFree(s.ranges.control);
  }

  /** Without a free control port a create changes nothing; over the limit it is not even admitted. */
  lemma {:induction false} CreateFailsIff(s: Service, o: Id)
    requires Ready(s) && Enabled(s, o, CreateAllocate) && s.ops[o].ports == NOTHING
    ensures var t := DoCreateAllocate(s, o);
            && (o !in t.ops <==> PortRange.Full(s.ranges.control))
            && (o !in t.ops ==>
                  && t.table == s.table && t.leases == s.leases && t.sticky == s.sticky
                  && Used(t, Agent) == Used(s, Agent) && Used(t, Control) == Used(s, Control) && Used(t, Mobile) == Used(s, Mobile))
  {
    CreateAllocateResult(s, o);
    PortRange.AllocateTakesNextFree(s.ranges.control);
  }

  // ---- start ------------------------------------------------------------------------------

  /** A start goes on exactly on an idle lease with a running agent and a free mobile port; otherwise nothing changes. */
  lemma {:induction false} StartGoesOnIff(s: Service, o: Id, agentRunning: bool)
    requires Ready(s) && Enabled(s, o, StartAllocate(agentRunning))
    ensures var t := DoStartAllocate(s, o, agentRunning);
            && (o in t.ops <==> s.leases[s.ops[o].lease].session.None? && agentRunning && !PortRange.Full(s.ranges.mobile))
            && (o in t.ops ==> t.ops[o].phase == StartHolding && NextFree(s.ranges.mobile, t.ops[o].ports.mobile))
            && (o !in t.ops ==> t == EndOp(s, o))
  {
    PortRange.AllocateTakesNextFree(s.ranges.mobile);
    AllocatesNextFree(s.ranges.mobile);
  }

  /** An idle lease in the table is captured on, with the next free mobile port. */
  lemma {:induction false} StartWorks(s: Service, o: Id, id: Id, session: string) returns (t: Service)
    requires Inv(s) && o !in s.ops && id in s.table && s.leases[id].session.None? && !PortRange.Full(s.ranges.mobile)
    ensures Leads(s, t) && t.ops == s.ops && id in t.leases
    ensures var port := t.leases[id].ports.mobile;
            && NextFree(s.ranges.mobile, port) && TookOne(s.ranges.mobile, t.ranges.mobile, port)
            && t == s.(ranges := s.ranges.(mobile := t.ranges.mobile),
                       leases := s.leases[id := s.leases[id].(session := Some(session), ports := s.leases[id].ports.(mobile := port))])
  {
    var (port, mobiles) := PortRange.Allocate(s.ranges.mobile);
    PortRange.AllocateTakesNextFree(s.ranges.mobile);
    AllocatesNextFree(s.ranges.mobile);
    var found := Op(StartFound, id, NOTHING);
    var s1 := s.(ranges := s.ranges.(mobile := mobiles));
    Begin(s, o, StartLookup(id), found);
    StartHolds(s, o, found, port.value, mobiles);
    Next(s, SetOp(s, o, found), o, StartAllocate(true), SetOp(s1, o, Op(StartHolding, id, Claim(0, 0, port.value))));
    MovesTo(s, s1, o, Op(StartHolding, id, Claim(0, 0, port.value)), StartSession(session), Op(StartLive(session), id, Claim(0, 0, port.value)));
    t := s1.(leases := s.leases[id := s.leases[id].(session := Some(session), ports := s.leases[id].ports.(mobile := port.value))]);
    StartCommits(s1, o, id, session, port.value, t);
    Next(s, SetOp(s1, o, Op(StartLive(session), id, Claim(0, 0, port.value))), o, StartCommit, t);
  }

  lemma {:induction false} StartHolds(s: Service, o: Id, op: Op, port: int, mobiles: PortRange.Ports)
    requires Ready(s) && op.phase.StartFound? && op.lease in s.leases && s.leases[op.lease].session.None?
    requires PortRange.Allocate(s.ranges.mobile) == (Some(port), mobiles)
    ensures Goes(SetOp(s, o, op), o, StartAllocate(true),
                 SetOp(s.(ranges := s.ranges.(mobile := mobiles)), o, Op(StartHolding, op.lease, Claim(0, 0, port))))
  {
    SetTwice(s, o, op, Op(StartHolding, op.lease, Claim(0, 0, port)));
  }

  lemma {:induction false} StartCommits(s: Service, o: Id, id: Id, session: string, port: int, t: Service)
    requires Ready(s) && o !in s.ops && id in s.leases
    requires t == s.(leases := s.leases[id := s.leases[id].(session := Some(session), ports := s.leases[id].ports.(mobile := port))])
    ensures Goes(SetOp(s, o, Op(StartLive(session), id, Claim(0, 0, port))), o, StartCommit, t)
  {
    SetAndEnd(s, o, Op(StartLive(session), id, Claim(0, 0, port)));
  }

  // ---- the end of a capture ---------------------------------------------------------------

  /** The lease `id` after its capture has ended: idle, its mobile port given back. */
  function Cleared(s: Service, id: Id): Service
    requires Ready(s) && id in s.leases
  {
    s.(leases := s.leases[id := s.leases[id].(session := None, ports := s.leases[id].ports.(mobile := 0))],
       ranges := s.ranges.(mobile := PortRange.Release(s.ranges.mobile, s.leases[id].ports.mobile)))
  }

  lemma {:induction false} ClearWorks(s: Service, t: Service, o: Id, op: Op, id: Id, session: string)
    requires Ready(t) && o !in t.ops && Capturing(t, id, session) && t.leases[id].ports.mobile != 0
    requires op == Op(Clearing(session), op.lease, NOTHING) && Leads(s, SetOp(t, o, op))
    ensures Leads(s, Cleared(t, id))
  {
    var port := t.leases[id].ports.mobile;
    var t1 := t.(leases := t.leases[id := t.leases[id].(session := None, ports := t.leases[id].ports.(mobile := 0))]);
    var holding := Op(Freeing, id, Claim(0, 0, port));
    GoesClear(t, o, op, id, session);
    Next(s, SetOp(t, o, op), o, Clear(Some(id)), SetOp(t1, o, holding));
    FreesOne(s, t1, o, holding, Mobile);
    Finish(s, Cleared(t, id), o, Op(Freeing, id, NOTHING));
  }

  lemma {:induction false} GoesClear(t: Service, o: Id, op: Op, id: Id, session: string)
    requires Ready(t) && Capturing(t, id, session) && op.phase == Clearing(session)
    ensures var l := t.leases[id];
            Goes(SetOp(t, o, op), o, Clear(Some(id)),
                 SetOp(t.(leases := t.leases[id := l.(session := None, ports := l.ports.(mobile := 0))]), o,
                       Op(Freeing, id, Claim(0, 0, l.ports.mobile))))
  {
    SetTwice(t, o, op, Op(Freeing, id, Claim(0, 0, t.leases[id].ports.mobile)));
  }

  /** The ranges with `port` given back. */
  function GivenBack(s: Service, k: Kind, port: int): Service
    requires Ready(s)
  {
    s.(ranges := s.ranges.With(k, PortRange.Release(s.ranges.Get(k), port)))
  }

  lemma {:induction false} FreesOne(s: Service, t: Service, o: Id, op: Op, k: Kind)
    requires Leads(s, SetOp(t, o, op)) && Ready(t) && (op.phase.Reclaiming? || op.phase.Freeing?)
    ensures Ready(GivenBack(t, k, op.ports.Get(k)))
    ensures Leads(s, SetOp(GivenBack(t, k, op.ports.Get(k)), o, op.(ports := op.ports.Without(k))))
  {
    var u := GivenBack(t, k, op.ports.Get(k));
    if op.ports.Get(k) == 0 {
      NoZero(t, k);
      assert u == t && op.(ports := op.ports.Without(k)) == op;
    } else {
      GoesFree(t, o, op, k);
      Next(s, SetOp(t, o, op), o, Free(k), SetOp(u, o, op.(ports := op.ports.Without(k))));
    }
  }

  lemma {:induction false} GoesFree(t: Service, o: Id, op: Op, k: Kind)
    requires Ready(t) && (op.phase.Reclaiming? || op.phase.Freeing?) && op.ports.Get(k) != 0
    ensures Goes(SetOp(t, o, op), o, Free(k), SetOp(GivenBack(t, k, op.ports.Get(k)), o, op.(ports := op.ports.Without(k))))
  {
    SetTwice(t, o, op, op.(ports := op.ports.Without(k)));
  }

  /** A session that ends by itself leaves its lease idle. */
  lemma {:induction false} SessionEndWorks(s: Service, o: Id, id: Id, session: string)
    requires Inv(s) && o !in s.ops && Capturing(s, id, session)
    ensures Leads(s, Cleared(s, id))
  {
    var op := Op(Clearing(session), 0, NOTHING);
    Begin(s, o, SessionEnds(session), op);
    HasMobilePort(s, id);
    ClearWorks(s, s, o, op, id, session);
  }

  lemma HasMobilePort(s: Service, id: Id)
    requires Inv(s) && id in s.table && s.leases[id].session.Some?
    ensures s.leases[id].ports.mobile != 0
  {
    assert LeaseFits(id, s.leases[id], s.table, s.agentsExhausted);
  }

  lemma {:induction false} StopReaches(s: Service, o: Id, id: Id, session: string)
    requires Inv(s) && o !in s.ops && Capturing(s, id, session)
    ensures Leads(s, SetOp(s, o, Op(Stopping(session), id, NOTHING)))
  {
    Begin(s, o, StopLookup(id), Op(StopFound, id, NOTHING));
    MovesTo(s, s, o, Op(StopFound, id, NOTHING), StopRead, Op(Stopping(session), id, NOTHING));
  }

  /** So does stopping its capture. */
  lemma {:induction false} StopWorks(s: Service, o: Id, id: Id, session: string)
    requires Inv(s) && o !in s.ops && Capturing(s, id, session)
    ensures Leads(s, Cleared(s, id))
  {
    StopReaches(s, o, id, session);
    MovesTo(s, s, o, Op(Stopping(session), id, NOTHING), StopDone, Op(Clearing(session), id, NOTHING));
    HasMobilePort(s, id);
    ClearWorks(s, s, o, Op(Clearing(session), id, NOTHING), id, session);
  }

  // ---- release ----------------------------------------------------------------------------

  /** The service without lease `id`, its ports given back. */
  function Without(s: Service, id: Id): Service
    requires Ready(s) && id in s.leases
  {
    var l := s.leases[id];
    s.(table := s.table - {id}, leases := s.leases[id := l.(ports := NOTHING)],
       ranges := Ranges(PortRange.Release(s.ranges.agent, l.ports.agent), PortRange.Release(s.ranges.control, l.ports.control),
                        PortRange.Release(s.ranges.mobile, l.ports.mobile)))
  }

  /** A lease of the table, captured on or not, is released: it leaves the table and gives all its ports back. */
  lemma {:induction false} ReleaseWorks(s: Service, o: Id, id: Id)
    requires Inv(s) && o !in s.ops && id in s.table
    ensures Leads(s, Without(s, id))
  {
    var l := s.leases[id];
    var s1 := Removed(s, id);
    var op := Op(Reclaiming, id, Claim(l.ports.agent, l.ports.control, 0));
    Released(s, o, id);
    GoesRemove(s, o, id);
    Next(s, SetOp(s, o, Op(ReleaseStopped, id, NOTHING)), o, ReclaimRemove, SetOp(s1, o, op));
    FreesOne(s, s1, o, op, Agent);
    var s2 := GivenBack(s1, Agent, l.ports.agent);
    FreesOne(s, s2, o, Op(Reclaiming, id, Claim(0, l.ports.control, 0)), Control);
    var s3 := GivenBack(s2, Control, l.ports.control);
    ReclaimsMobile(s, s3, o, id);
    AllGivenBack(s, id);
  }

  /** Lease `id` out of the table; it still has its mobile port. */
  function Removed(s: Service, id: Id): Service
    requires id in s.leases
  {
    s.(table := s.table - {id}, leases := s.leases[id := s.leases[id].(ports := Claim(0, 0, s.leases[id].ports.mobile))])
  }

  lemma {:induction false} GoesRemove(s: Service, o: Id, id: Id)
    requires Ready(s) && id in s.table && id in s.leases
    ensures Goes(SetOp(s, o, Op(ReleaseStopped, id, NOTHING)), o, ReclaimRemove,
                 SetOp(Removed(s, id), o, Op(Reclaiming, id, s.leases[id].ports.(mobile := 0))))
  {
    SetTwice(s, o, Op(ReleaseStopped, id, NOTHING), Op(Reclaiming, id, s.leases[id].ports.(mobile := 0)));
  }

  lemma AllGivenBack(s: Service, id: Id)
    requires Ready(s) && id in s.leases
    ensures var l := s.leases[id];
            var t := GivenBack(GivenBack(Removed(s, id), Agent, l.ports.agent), Control, l.ports.control);
            Without(s, id) == GivenBack(t, Mobile, l.ports.mobile).(leases := t.leases[id := t.leases[id].(ports := NOTHING)])
  {
  }

  lemma {:induction false} ReclaimsMobile(s: Service, t: Service, o: Id, id: Id)
    requires Ready(t) && o !in t.ops && id in t.leases && Leads(s, SetOp(t, o, Op(Reclaiming, id, NOTHING)))
    ensures Leads(s, GivenBack(t, Mobile, t.leases[id].ports.mobile).(leases := t.leases[id := t.leases[id].(ports := NOTHING)]))
  {
    var l := t.leases[id];
    var t1 := t.(leases := t.leases[id := l.(ports := NOTHING)]);
    var op := Op(Freeing, id, Claim(0, 0, l.ports.mobile));
    assert Goes(SetOp(t, o, Op(Reclaiming, id, NOTHING)), o, ReclaimMobile, SetOp(t1, o, op)) by {
      SetTwice(t, o, Op(Reclaiming, id, NOTHING), op);
    }
    Next(s, SetOp(t, o, Op(Reclaiming, id, NOTHING)), o, ReclaimMobile, SetOp(t1, o, op));
    FreesOne(s, t1, o, op, Mobile);
    Finish(s, GivenBack(t1, Mobile, l.ports.mobile), o, Op(Freeing, id, NOTHING));
  }

  lemma {:induction false} ReleaseReaches(s: Service, o: Id, id: Id, session: string)
    requires Inv(s) && o !in s.ops && Capturing(s, id, session)
    ensures Leads(s, SetOp(s, o, Op(ReleaseStopping(session), id, NOTHING)))
  {
    Begin(s, o, ReleaseLookup(id), Op(ReleaseFound, id, NOTHING));
    MovesTo(s, s, o, Op(ReleaseFound, id, NOTHING), ReleaseRead, Op(ReleaseStopping(session), id, NOTHING));
  }

  lemma {:induction false} Released(s: Service, o: Id, id: Id)
    requires Inv(s) && o !in s.ops && id in s.table
    ensures Leads(s, SetOp(s, o, Op(ReleaseStopped, id, NOTHING)))
  {
    if s.leases[id].session.None? {
      var found := Op(ReleaseFound, id, NOTHING);
      Begin(s, o, ReleaseLookup(id), found);
      MovesTo(s, s, o, found, ReleaseRead, Op(ReleaseStopped, id, NOTHING));
    } else {
      var session := s.leases[id].session.value;
      ReleaseReaches(s, o, id, session);
      MovesTo(s, s, o, Op(ReleaseStopping(session), id, NOTHING), ReleaseSessionStopped, Op(ReleaseStopped, id, NOTHING));
    }
  }

  // ---- operations that fail ---------------------------------------------------------------

  /** Operation `o` gives back all it holds and ends. */
  lemma {:induction false} GivesAllBack(s: Service, t: Service, o: Id, op: Op)
    requires Leads(s, SetOp(t, o, op)) && Ready(t) && o !in t.ops && op.phase.Freeing?
    ensures Leads(s, GivenBack(GivenBack(GivenBack(t, Agent, op.ports.agent), Control, op.ports.control), Mobile, op.ports.mobile))
  {
    FreesOne(s, t, o, op, Agent);
    var t1 := GivenBack(t, Agent, op.ports.agent);
    FreesOne(s, t1, o, op.(ports := Claim(0, op.ports.control, op.ports.mobile)), Control);
    var t2 := GivenBack(t1, Control, op.ports.control);
    FreesOne(s, t2, o, op.(ports := Claim(0, 0, op.ports.mobile)), Mobile);
    Finish(s, GivenBack(t2, Mobile, op.ports.mobile), o, op.(ports := NOTHING));
  }

  /** A create whose agent cannot be started gives both ports back. */
  lemma {:induction false} FailedCreateGivesBack(s: Service, t: Service, o: Id, op: Op)
    requires Leads(s, SetOp(t, o, op)) && Ready(t) && o !in t.ops && op.phase.Equipped? && op.ports.mobile == 0
    ensures Leads(s, GivenBack(GivenBack(t, Agent, op.ports.agent), Control, op.ports.control))
  {
    MovesTo(s, t, o, op, CreateGiveUp, op.(phase := Freeing));
    GivesAllBack(s, t, o, op.(phase := Freeing));
    NothingGivenBack(GivenBack(GivenBack(t, Agent, op.ports.agent), Control, op.ports.control), Mobile);
  }

  /** So does one that finds the owner at the limit when it inserts its lease. */
  lemma {:induction false} LateCreateGivesBack(s: Service, t: Service, o: Id, op: Op, id: Id)
    requires Leads(s, SetOp(t, o, op)) && Ready(t) && o !in t.ops && op.phase.Equipped? && op.ports.mobile == 0
    requires id !in t.leases && |OwnedBy(t, op.phase.owner)| >= MAX_LEASES_PER_OWNER
    ensures Leads(s, GivenBack(GivenBack(t, Agent, op.ports.agent), Control, op.ports.control))
  {
    assert OwnedBy(SetOp(t, o, op), op.phase.owner) == OwnedBy(t, op.phase.owner);
    MovesTo(s, t, o, op, CreateInsert(id), op.(phase := Freeing));
    GivesAllBack(s, t, o, op.(phase := Freeing));
    NothingGivenBack(GivenBack(GivenBack(t, Agent, op.ports.agent), Control, op.ports.control), Mobile);
  }

  lemma NothingGivenBack(t: Service, k: Kind)
    requires Ready(t)
    ensures GivenBack(t, k, 0) == t
  {
    NoZero(t, k);
  }

  /** A start that fails, before or after its session is up, gives its mobile port back and leaves the lease idle. */
  lemma {:induction false} FailedStartGivesBack(s: Service, t: Service, o: Id, op: Op)
    requires Leads(s, SetOp(t, o, op)) && Ready(t) && o !in t.ops
    requires (op.phase.StartHolding? || op.phase.StartLive?) && op.ports.agent == 0 && op.ports.control == 0
    ensures Leads(s, GivenBack(t, Mobile, op.ports.mobile))
  {
    MovesTo(s, t, o, op, StartAbort, op.(phase := Freeing));
    GivesAllBack(s, t, o, op.(phase := Freeing));
    NothingGivenBack(t, Agent);
    NothingGivenBack(t, Control);
  }

  lemma {:induction false} GoesEnd(s: Service, o: Id, op: Op, step: Step)
    requires Ready(s) && o !in s.ops
    requires (step == StopFail && op.phase.Stopping?) || (step == ReleaseFail && op.phase.ReleaseStopping?)
    ensures Goes(SetOp(s, o, op), o, step, s)
  {
    SetAndEnd(s, o, op);
  }

  /** A stop that cannot stop the session changes nothing: the lease goes on capturing. */
  lemma {:induction false} FailedStopChangesNothing(s: Service, o: Id, id: Id, session: string)
    requires Inv(s) && o !in s.ops && Capturing(s, id, session)
    ensures Leads(s, SetOp(s, o, Op(Stopping(session), id, NOTHING)))
    ensures Goes(SetOp(s, o, Op(Stopping(session), id, NOTHING)), o, StopFail, s)
  {
    StopReaches(s, o, id, session);
    GoesEnd(s, o, Op(Stopping(session), id, NOTHING), StopFail);
  }

  /** Nor does a release that cannot: the lease stays in the table. */
  lemma {:induction false} FailedReleaseChangesNothing(s: Service, o: Id, id: Id, session: string)
    requires Inv(s) && o !in s.ops && Capturing(s, id, session)
    ensures Leads(s, SetOp(s, o, Op(ReleaseStopping(session), id, NOTHING)))
    ensures Goes(SetOp(s, o, Op(ReleaseStopping(session), id, NOTHING)), o, ReleaseFail, s)
  {
    ReleaseReaches(s, o, id, session);
    GoesEnd(s, o, Op(ReleaseStopping(session), id, NOTHING), ReleaseFail);
  }

  // ---- a device that comes back -----------------------------------------------------------

  lemma LeadsInv(s: Service, t: Service)
    requires Inv(s) && Leads(s, t)
    ensures Inv(t)
  {
    var run :| Legal(s, run) && Run(s, run) == t;
    RunInv(s, run);
  }

  /** A create and the release of the new lease leave table and ports as they were. */
  lemma {:induction false} BackAgain(s: Service, t: Service, id: Id)
    requires Inv(s) && Ready(t) && id !in s.leases && id in t.leases && t.table == s.table + {id}
    requires t.leases == s.leases[id := t.leases[id]] && t.leases[id].ports.mobile == 0 && t.ranges.mobile == s.ranges.mobile
    requires TookOne(s.ranges.agent, t.ranges.agent, t.leases[id].ports.agent)
    requires TookOne(s.ranges.control, t.ranges.control, t.leases[id].ports.control)
    requires t.leases[id].ports.agent !in s.ranges.agent.used && t.leases[id].ports.control !in s.ranges.control.used
    ensures var u := Without(t, id);
            && u.table == s.table && (forall k: Kind :: Used(u, k) == Used(s, k))
            && u.ranges.control == s.ranges.control.(cursor := u.ranges.control.cursor)
            && u.ranges.agent == s.ranges.agent.(cursor := u.ranges.agent.cursor)
            && forall owner :: OwnedBy(u, owner) == OwnedBy(s, owner)
  {
    var u := Without(t, id);
    NoZero(s, Agent);
    NoZero(s, Control);
    NoZero(s, Mobile);
    assert u.table == s.table;
    assert u.ranges.control.used == s.ranges.control.used;
    assert u.ranges.agent.used == s.ranges.agent.used;
    forall owner
      ensures OwnedBy(u, owner) == OwnedBy(s, owner)
    {
      assert forall i :: i in s.table ==> u.leases[i] == s.leases[i];
    }
  }

  /**
   * An owner creates a lease for a device, releases it and creates one for that device again:
   * all three operations go through, and the second lease has the agent port of the first.
   */
  lemma {:induction false} ReturningDevice(s: Service, o: Id, a: Id, b: Id, owner: string, device: string, noSticky: bool)
    returns (t1: Service, t2: Service)
    requires Inv(s) && o !in s.ops && a !in s.leases && b !in s.leases && a != b && device != ""
    requires |OwnedBy(s, owner)| < MAX_LEASES_PER_OWNER && !PortRange.Full(s.ranges.control) && !PortRange.Full(s.ranges.agent)
    ensures Leads(s, t1) && a in t1.table && a in t1.leases && t1.leases[a].owner == owner && t1.leases[a].device == device
    ensures Ready(t1) && Leads(t1, Without(t1, a)) && Leads(Without(t1, a), t2)
    ensures t2.table == s.table + {b} && b in t2.leases && t2.leases[b].owner == owner && t2.leases[b].device == device
    ensures t2.leases[b].ports.agent == t1.leases[a].ports.agent
    ensures Used(t2, Mobile) == Used(s, Mobile)
  {
    t1 := CreateWorks(s, o, a, owner, device, noSticky);
    ChosenIsFree(s.ranges.agent, noSticky, StickyOf(s, StickyKey(owner, device)), t1.leases[a].ports.agent);
    NextIsFree(s.ranges.control, t1.leases[a].ports.control);
    LeadsInv(s, t1);
    ReleaseWorks(t1, o, a);
    BackAgain(s, t1, a);
    t2 := CreatesAgain(s, t1, o, a, b, owner, device);
  }

  lemma NextIsFree(p: PortRange.Ports, port: int)
    requires p.Valid() && NextFree(p, port)
    ensures port !in p.used && (!PortRange.Full(p) ==> p.base <= port <= p.max)
  {
    if !PortRange.Full(p) {
      var i: nat :| i < p.Size() && p.Slot(i) == port;
      assert 0 <= (p.cursor + i) % p.Size() < p.Size();
    }
  }

  lemma ChosenIsFree(p: PortRange.Ports, noSticky: bool, last: Option<int>, port: int)
    requires p.Valid() && Chosen(p, noSticky, last, port) && !PortRange.Full(p)
    ensures port !in p.used && p.base <= port <= p.max
  {
    if NextFree(p, port) {
      NextIsFree(p, port);
    }
  }

  lemma {:induction false} CreatesAgain(s: Service, t1: Service, o: Id, a: Id, b: Id, owner: string, device: string) returns (t2: Service)
    requires Inv(t1) && o !in s.ops && b !in s.leases && a != b && a in t1.leases && t1.ops == s.ops && Leads(t1, Without(t1, a))
    requires t1.leases == s.leases[a := t1.leases[a]]
    requires var u := Without(t1, a);
             && u.table == s.table && (forall k: Kind :: Used(u, k) == Used(s, k))
             && u.ranges.control == s.ranges.control.(cursor := u.ranges.control.cursor)
             && u.ranges.agent == s.ranges.agent.(cursor := u.ranges.agent.cursor)
             && OwnedBy(u, owner) == OwnedBy(s, owner)
    requires |OwnedBy(s, owner)| < MAX_LEASES_PER_OWNER && !PortRange.Full(s.ranges.control)
    requires StickyOf(t1, StickyKey(owner, device)) == Some(t1.leases[a].ports.agent)
    requires s.ranges.agent.base <= t1.leases[a].ports.agent <= s.ranges.agent.max && t1.leases[a].ports.agent !in s.ranges.agent.used
    ensures Leads(Without(t1, a), t2)
    ensures t2.table == s.table + {b} && b in t2.leases && t2.leases[b].owner == owner && t2.leases[b].device == device
    ensures t2.leases[b].ports.agent == t1.leases[a].ports.agent
    ensures Used(t2, Mobile) == Used(s, Mobile)
  {
    var u := Without(t1, a);
    LeadsInv(t1, u);
    assert Used(s, Agent) == s.ranges.agent.used && Used(u, Agent) == u.ranges.agent.used;
    t2 := CreateWorks(u, o, b, owner, device, false);
    assert t2.ranges.mobile == u.ranges.mobile;
  }
}
