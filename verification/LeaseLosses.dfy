/**
 * When ports stay accounted for over a whole run, overlaps included: exactly as long as every
 * start that is committed finds its lease without a mobile port and still able to give one back.
 */
module LeaseLosses {
  import opened Seqs
  import PortRange
  import opened ProxyLeases
  import opened LeaseSafety
  import opened LeaseAccounting
  import opened LeaseOverlap

  /** Every used port is that of a live holder. */
  ghost predicate Backed(s: Service, k: Kind) {
    forall p | p in Used(s, k) :: exists h :: Live(s, h) && Port(s, k, h) == p
  }

  lemma {:induction false} BackedIsAccounted(s: Service, k: Kind)
    requires Ready(s) && Sound(s, k)
    ensures Backed(s, k) <==> Accounted(s, k)
  {
    NoZero(s, k);
  }

  /**
   * A step in which one holder's port goes to another one, or is given back, or one holder
   * takes a port; everybody else keeps what they hold, and whoever holds something stays live.
   */
  lemma {:induction false} StaysBacked(s: Service, s': Service, k: Kind, from: Holder, to: Holder)
    requires Backed(s, k)
    requires forall h :: h != from && Live(s, h) && Port(s, k, h) != 0 ==> Live(s', h) && Port(s', k, h) == Port(s, k, h)
    requires Port(s, k, from) != 0 && Port(s, k, from) in Used(s', k) ==> Live(s', to) && Port(s', k, to) == Port(s, k, from)
    requires forall p | p in Used(s', k) :: p != 0 && (p in Used(s, k) || (Live(s', to) && Port(s', k, to) == p))
    ensures Backed(s', k)
  {
    forall p | p in Used(s', k)
      ensures exists h :: Live(s', h) && Port(s', k, h) == p
    {
      if p in Used(s, k) {
        var h :| Live(s, h) && Port(s, k, h) == p;
        assert Live(s', if h == from then to else h);
      }
    }
  }

  /** Operation o goes on and is still reclaiming its lease if it was; no lease just leaves the table. */
  lemma {:induction false} LiveStays(s: Service, s': Service, o: Id, id: Id)
    requires s'.ops == if o in s'.ops then s.ops[o := s'.ops[o]] else s.ops - {o}
    requires BeingReclaimed(s, id, o) ==> BeingReclaimed(s', id, o)
    requires id in s.table ==> id in s'.table || BeingReclaimed(s', id, o)
    requires Live(s, OfLease(id))
    ensures Live(s', OfLease(id))
  {
    if id !in s.table {
      var a :| BeingReclaimed(s, id, a);
      assert BeingReclaimed(s', id, a);
    }
  }

  /** The ports after a step are those before it, but for one holder at each end. */
  ghost predicate Moves(s: Service, s': Service, k: Kind, from: Holder, to: Holder) {
    && (forall h :: h != from && h != to ==> Port(s', k, h) == Port(s, k, h))
    && (from != to ==> Port(s, k, to) == 0)
    && (Port(s, k, from) != 0 && Port(s, k, from) in Used(s', k) ==> Port(s', k, to) == Port(s, k, from))
    && (forall p | p in Used(s', k) :: p in Used(s, k) || Port(s', k, to) == p)
  }

  /** An operation and at most one lease are concerned. */
  lemma {:induction false} OneStepBacked(s: Service, s': Service, k: Kind, o: Id, from: Holder, to: Holder)
    requires Backed(s, k) && Ready(s') && Moves(s, s', k, from, to) && Live(s', to)
    requires s'.ops == if o in s'.ops then s.ops[o := s'.ops[o]] else s.ops - {o}
    requires forall id :: OfLease(id) != from ==>
               && (BeingReclaimed(s, id, o) ==> BeingReclaimed(s', id, o))
               && (id in s.table ==> id in s'.table || BeingReclaimed(s', id, o))
    ensures Backed(s', k)
  {
    NoZero(s', k);
    forall h | h != from && Live(s, h) && Port(s, k, h) != 0
      ensures Live(s', h) && Port(s', k, h) == Port(s, k, h)
    {
      if h.OfLease? {
        LiveStays(s, s', o, h.id);
      }
    }
    StaysBacked(s, s', k, from, to);
  }

  /** An operation that reclaims nothing goes on or ends with the ports it has. */
  lemma {:induction false} SetBacked(s: Service, o: Id, op: Op, k: Kind)
    requires Ready(s) && Backed(s, k) && (o in s.ops ==> !s.ops[o].phase.Reclaiming?)
    requires op.ports == if o in s.ops then s.ops[o].ports else NOTHING
    ensures Backed(SetOp(s, o, op), k)
  {
    OneStepBacked(s, SetOp(s, o, op), k, o, OfOp(o), OfOp(o));
  }

  lemma {:induction false} EndBacked(s: Service, o: Id, k: Kind)
    requires Ready(s) && Backed(s, k) && o in s.ops && !s.ops[o].phase.Reclaiming? && s.ops[o].ports == NOTHING
    ensures Backed(EndOp(s, o), k)
  {
    OneStepBacked(s, EndOp(s, o), k, o, OfOp(o), OfOp(o));
  }

  lemma {:induction false} QuietReclaimsNothing(s: Service, o: Id, step: Step)
    requires Enabled(s, o, step) && Quiet(step) && o in s.ops
    ensures !s.ops[o].phase.Reclaiming?
  {
  }

  lemma {:induction false} QuietBacked(s: Service, o: Id, step: Step, k: Kind)
    requires Shape(s) && Backed(s, k) && Enabled(s, o, step) && Quiet(step)
    ensures Backed(Apply(s, o, step), k)
  {
    QuietShape(s, o, step);
    if o in s.ops {
      QuietReclaimsNothing(s, o, step);
    }
    var s' := Apply(s, o, step);
    if o in s'.ops && s' == SetOp(s, o, s'.ops[o]) {
      SetBacked(s, o, s'.ops[o], k);
    } else {
      EndBacked(s, o, k);
    }
  }

  lemma {:induction false} CreateAllocatePasses(s: Service, o: Id, k: Kind)
    requires Ready(s) && Enabled(s, o, CreateAllocate) && s.ops[o].ports == NOTHING
    ensures Moves(s, DoCreateAllocate(s, o), k, OfOp(o), OfOp(o))
  {
    CreateAllocateResult(s, o);
  }

  lemma {:induction false} CreateAllocateBacked(s: Service, o: Id, k: Kind)
    requires Shape(s) && Backed(s, k) && Enabled(s, o, CreateAllocate)
    ensures Backed(DoCreateAllocate(s, o), k)
  {
    var s' := DoCreateAllocate(s, o);
    assert Ready(s') && s'.table == s.table by {
      CreateAllocateShape(s, o);
    }
    assert OpFits(s.ops[o], s.table, s.leases, s.agentsExhausted);
    CreateAllocatePasses(s, o, k);
    assert s'.ops == (if o in s'.ops then s.ops[o := s'.ops[o]] else s.ops - {o}) by {
      CreateAllocateResult(s, o);
    }
    OneStepBacked(s, s', k, o, OfOp(o), OfOp(o));
  }

  lemma {:induction false} CreateInsertBacked(s: Service, o: Id, id: Id, k: Kind)
    requires Shape(s) && Backed(s, k) && Enabled(s, o, CreateInsert(id))
    ensures Backed(DoCreateInsert(s, o, id), k)
  {
    var s' := DoCreateInsert(s, o, id);
    if id in s'.table {
      OneStepBacked(s, s', k, o, OfOp(o), OfLease(id));
    } else {
      SetBacked(s, o, s.ops[o].(phase := Freeing), k);
    }
  }

  /** The operation takes a mobile port. */
  lemma {:induction false} TakeBacked(s: Service, o: Id, op: Op, rest: PortRange.Ports, k: Kind)
    requires Ready(s) && Backed(s, k) && o in s.ops && !s.ops[o].phase.Reclaiming? && s.ops[o].ports == NOTHING
    requires rest.Valid() && op.ports == Claim(0, 0, op.ports.mobile) && rest.used == Used(s, Mobile) + {op.ports.mobile}
    ensures Backed(SetOp(s, o, op).(ranges := s.ranges.(mobile := rest)), k)
  {
    OneStepBacked(s, SetOp(s, o, op).(ranges := s.ranges.(mobile := rest)), k, o, OfOp(o), OfOp(o));
  }

  lemma {:induction false} AllocateBacked(s: Service, o: Id, agentRunning: bool, k: Kind)
    requires Shape(s) && Backed(s, k) && Enabled(s, o, StartAllocate(agentRunning))
    ensures Backed(DoStartAllocate(s, o, agentRunning), k)
  {
    var op := s.ops[o];
    var (port, mobiles) := PortRange.Allocate(s.ranges.mobile);
    PortRange.AllocateTakesNextFree(s.ranges.mobile);
    assert OpFits(op, s.table, s.leases, s.agentsExhausted);
    if s.leases[op.lease].session.Some? || !agentRunning || port.None? {
      EndBacked(s, o, k);
    } else {
      TakeBacked(s, o, Op(StartHolding, op.lease, Claim(0, 0, port.value)), mobiles, k);
    }
  }

  lemma {:induction false} RemoveBacked(s: Service, o: Id, k: Kind)
    requires Shape(s) && Backed(s, k) && Enabled(s, o, ReclaimRemove)
    ensures Backed(DoReclaimRemove(s, o), k)
  {
    assert OpFits(s.ops[o], s.table, s.leases, s.agentsExhausted);
    if s.ops[o].lease !in s.table {
      EndBacked(s, o, k);
    } else {
      var s' := DoReclaimRemove(s, o);
      var from := if k == Mobile then OfOp(o) else OfLease(s.ops[o].lease);
      assert Moves(s, s', k, from, OfOp(o));
      assert BeingReclaimed(s', s.ops[o].lease, o);
      OneStepBacked(s, s', k, o, from, OfOp(o));
    }
  }

  lemma {:induction false} ReclaimBacked(s: Service, o: Id, k: Kind)
    requires Shape(s) && Backed(s, k) && Enabled(s, o, ReclaimMobile)
    ensures Backed(DoReclaimMobile(s, o), k)
  {
    var id := s.ops[o].lease;
    assert OpFits(s.ops[o], s.table, s.leases, s.agentsExhausted);
    assert LeaseFits(id, s.leases[id], s.table, s.agentsExhausted);
    OneStepBacked(s, DoReclaimMobile(s, o), k, o, OfLease(id), OfOp(o));
  }

  lemma {:induction false} ClearPasses(s: Service, o: Id, id: Id, k: Kind)
    requires Ready(s) && Enabled(s, o, Clear(Some(id))) && s.ops[o].ports == NOTHING
    ensures Moves(s, DoClear(s, o, Some(id)), k, if k == Mobile then OfLease(id) else OfOp(o), OfOp(o))
  {
  }

  lemma {:induction false} ClearBacked(s: Service, o: Id, hit: Option<Id>, k: Kind)
    requires Shape(s) && Backed(s, k) && Enabled(s, o, Clear(hit))
    ensures Backed(DoClear(s, o, hit), k)
  {
    assert OpFits(s.ops[o], s.table, s.leases, s.agentsExhausted);
    if hit.None? {
      EndBacked(s, o, k);
    } else {
      ClearPasses(s, o, hit.value, k);
      OneStepBacked(s, DoClear(s, o, hit), k, o, if k == Mobile then OfLease(hit.value) else OfOp(o), OfOp(o));
    }
  }

  lemma {:induction false} FreeBacked(s: Service, o: Id, kind: Kind, k: Kind)
    requires Shape(s) && Sound(s, k) && Backed(s, k) && Enabled(s, o, Free(kind))
    ensures Backed(DoFree(s, o, kind), k)
  {
    OneStepBacked(s, DoFree(s, o, kind), k, o, OfOp(o), OfOp(o));
  }

  lemma {:induction false} CommitBacked(s: Service, o: Id, k: Kind)
    requires Shape(s) && Backed(s, k) && Enabled(s, o, StartCommit) && k != Mobile
    ensures Backed(DoStartCommit(s, o), k)
  {
    assert OpFits(s.ops[o], s.table, s.leases, s.agentsExhausted);
    OneStepBacked(s, DoStartCommit(s, o), k, o, OfOp(o), OfOp(o));
  }

  /** Every step but the commit of a mobile port keeps used ports backed, whatever overlaps. */
  lemma {:induction false} StepBacked(s: Service, o: Id, step: Step, k: Kind)
    requires Inv(s) && Backed(s, k) && Enabled(s, o, step) && !(step.StartCommit? && k == Mobile)
    ensures Backed(Apply(s, o, step), k)
  {
    if Quiet(step) {
      QuietBacked(s, o, step, k);
    } else {
      match step
      case StartAllocate(agentRunning) => AllocateBacked(s, o, agentRunning, k);
      case StartCommit => CommitBacked(s, o, k);
      case ReclaimRemove => RemoveBacked(s, o, k);
      case ReclaimMobile => ReclaimBacked(s, o, k);
      case Clear(hit) => ClearBacked(s, o, hit, k);
      case Free(kind) => FreeBacked(s, o, kind, k);
      case CreateAllocate => CreateAllocateBacked(s, o, k);
      case CreateInsert(id) => CreateInsertBacked(s, o, id, k);
    }
  }

  lemma {:induction false} InvStep(s: Service, o: Id, step: Step)
    requires Inv(s) && Enabled(s, o, step)
    ensures Inv(Apply(s, o, step))
  {
    HoldingStep(s, o, step);
    LimitedStep(s, o, step);
  }

  // ---- whole runs ---------------------------------------------------------------------

  /** In every state of the run the used mobile ports are those of live holders. */
  ghost predicate AlwaysAccounted(s: Service, run: seq<(Id, Step)>)
    requires Legal(s, run)
    decreases |run|
  {
    && Accounted(s, Mobile)
    && (run == [] || AlwaysAccounted(Apply(s, run[0].0, run[0].1), run[1..]))
  }

  /** Every commit finds a lease without a mobile port that is in the table or being reclaimed. */
  ghost predicate CommitsKeepPorts(s: Service, run: seq<(Id, Step)>)
    requires Legal(s, run)
    decreases |run|
  {
    run == [] ||
    ((run[0].1.StartCommit? ==> CommitKeepsPorts(s, run[0].0))
     && CommitsKeepPorts(Apply(s, run[0].0, run[0].1), run[1..]))
  }

  lemma {:induction false} AccountedIffCommits(s: Service, run: seq<(Id, Step)>)
    requires Inv(s) && Accounted(s, Mobile) && Legal(s, run)
    ensures AlwaysAccounted(s, run) <==> CommitsKeepPorts(s, run)
    decreases |run|
  {
    if run != [] {
      var o, step := run[0].0, run[0].1;
      var t := Apply(s, o, step);
      InvStep(s, o, step);
      if step.StartCommit? {
        CommitLosesPortIff(s, o);
      } else {
        BackedIsAccounted(s, Mobile);
        StepBacked(s, o, step, Mobile);
        BackedIsAccounted(t, Mobile);
      }
      if Accounted(t, Mobile) {
        AccountedIffCommits(t, run[1..]);
      }
    }
  }

  /**
   * In a whole run, starts, stops, releases and sessions' ends overlapping as they may, mobile
   * ports stay accounted for if and only if every start is committed to a lease that has no
   * mobile port yet and is in the table or being reclaimed.
   */
  lemma PortsAreLostIff(run: seq<(Id, Step)>)
    requires Legal(Init(), run)
    ensures AlwaysAccounted(Init(), run) <==> CommitsKeepPorts(Init(), run)
  {
    InitInv();
    AccountedIffCommits(Init(), run);
  }

  /** Agent and control ports are never lost, whatever overlaps. */
  lemma {:induction false} OtherPortsAreKept(s: Service, run: seq<(Id, Step)>, k: Kind)
    requires Inv(s) && Accounted(s, k) && k != Mobile && Legal(s, run)
    ensures Accounted(Run(s, run), k)
    decreases |run|
  {
    if run != [] {
      var t := Apply(s, run[0].0, run[0].1);
      InvStep(s, run[0].0, run[0].1);
      BackedIsAccounted(s, k);
      StepBacked(s, run[0].0, run[0].1, k);
      BackedIsAccounted(t, k);
      OtherPortsAreKept(t, run[1..], k);
    }
  }

  // ---- a start and a release that overlap ---------------------------------------------

  /** Lease 0 while operation 1 starts it and operation 2 releases it. */
  function Both(ports: Claim, release: Op, table: set<Id>, agents: set<int>, controls: set<int>): Service {
    Service(table, map[0 := Lease("owner", "", ports, None)],
            Ranges(PortRange.Ports(12100, 12199, agents, 1), PortRange.Ports(19500, 19599, controls, 1), Mobiles(1)),
            map[], map[1 := IsLive("first", 19100), 2 := release], false)
  }

  function Releasing(phase: Phase, ports: Claim): Op {
    Op(phase, 0, ports)
  }

  function Started(): Service {
    OneLease(0, None, map[1 := IsLive("first", 19100)], Mobiles(1))
  }

  function FoundIt(): Service {
    Both(Claim(12100, 19500, 0), Releasing(ReleaseFound, NOTHING), {0}, {12100}, {19500})
  }

  function ReadIt(): Service {
    Both(Claim(12100, 19500, 0), Releasing(ReleaseStopped, NOTHING), {0}, {12100}, {19500})
  }

  function RemovedIt(): Service {
    Both(NOTHING, Releasing(Reclaiming, Claim(12100, 19500, 0)), {}, {12100}, {19500})
  }

  function AgentFree(): Service {
    Both(NOTHING, Releasing(Reclaiming, Claim(0, 19500, 0)), {}, {}, {19500})
  }

  function ControlFree(): Service {
    Both(NOTHING, Releasing(Reclaiming, NOTHING), {}, {}, {})
  }

  function NoMobile(): Service {
    Both(NOTHING, Releasing(Freeing, NOTHING), {}, {}, {})
  }

  /** The released lease, with the port of the start that is committed too late. */
  function Leftover(): Service {
    Service({}, map[0 := Lease("owner", "", Claim(0, 0, 19100), Some("first"))],
            Ranges(PortRange.Ports(12100, 12199, {}, 1), PortRange.Ports(19500, 19599, {}, 1), Mobiles(1)),
            map[], map[], false)
  }

  function Released(): Service {
    NoMobile().(ops := map[1 := IsLive("first", 19100)])
  }

  lemma StartAllocatesFirst()
    ensures Goes(OneLease(0, None, map[1 := Found()], Mobiles(0)), 1, StartAllocate(true),
                 OneLease(0, None, map[1 := Holding(19100)], Mobiles(1)))
  {
    var ops := map[1 := Found()];
    FewPorts();
    OneAllocates(0, ops, 1);
    assert ops[1 := Holding(19100)] == map[1 := Holding(19100)];
  }

  lemma StartGoesLive()
    ensures Goes(OneLease(0, None, map[1 := Holding(19100)], Mobiles(1)), 1, StartSession("first"), Started())
  {
  }

  lemma ReleaseFinds()
    ensures Goes(Started(), 2, ReleaseLookup(0), FoundIt())
  {
  }

  lemma ReleaseReads()
    ensures Goes(FoundIt(), 2, ReleaseRead, ReadIt())
  {
  }

  lemma ReleaseRemoves()
    ensures Goes(ReadIt(), 2, ReclaimRemove, RemovedIt())
  {
  }

  lemma ReleaseFreesAgent()
    ensures Goes(RemovedIt(), 2, Free(Agent), AgentFree())
  {
  }

  lemma ReleaseFreesControl()
    ensures Goes(AgentFree(), 2, Free(Control), ControlFree())
  {
  }

  lemma ReleaseFindsNoMobile()
    ensures Goes(ControlFree(), 2, ReclaimMobile, NoMobile())
  {
  }

  lemma ReleaseEnds()
    ensures Goes(NoMobile(), 2, OpEnds, Released())
  {
  }

  lemma StartCommitsLate()
    ensures Goes(Released(), 1, StartCommit, Leftover())
  {
  }

  lemma StartIsLive()
    ensures Reachable(Started())
  {
    CreatesOne();
    FirstFinds();
    Then(Idle(), 1, StartLookup(0), OneLease(0, None, map[1 := Found()], Mobiles(0)));
    StartAllocatesFirst();
    Then(OneLease(0, None, map[1 := Found()], Mobiles(0)), 1, StartAllocate(true),
         OneLease(0, None, map[1 := Holding(19100)], Mobiles(1)));
    StartGoesLive();
    Then(OneLease(0, None, map[1 := Holding(19100)], Mobiles(1)), 1, StartSession("first"), Started());
  }

  lemma LeaseIsRemoved()
    ensures Reachable(RemovedIt())
  {
    StartIsLive();
    ReleaseFinds();
    Then(Started(), 2, ReleaseLookup(0), FoundIt());
    ReleaseReads();
    Then(FoundIt(), 2, ReleaseRead, ReadIt());
    ReleaseRemoves();
    Then(ReadIt(), 2, ReclaimRemove, RemovedIt());
  }

  lemma PortsAreGivenBack()
    ensures Reachable(ControlFree())
  {
    LeaseIsRemoved();
    ReleaseFreesAgent();
    Then(RemovedIt(), 2, Free(Agent), AgentFree());
    ReleaseFreesControl();
    Then(AgentFree(), 2, Free(Control), ControlFree());
  }

  lemma StartIsCommitted()
    ensures Reachable(Leftover())
  {
    PortsAreGivenBack();
    ReleaseFindsNoMobile();
    Then(ControlFree(), 2, ReclaimMobile, NoMobile());
    ReleaseEnds();
    Then(NoMobile(), 2, OpEnds, Released());
    StartCommitsLate();
    Then(Released(), 1, StartCommit, Leftover());
  }

  lemma LeftoverIsUnaccounted()
    ensures !Accounted(Leftover(), Mobile)
  {
    var s := Leftover();
    FewPorts();
    assert 19100 in Used(s, Mobile);
    forall h | Live(s, h)
      ensures Port(s, Mobile, h) != 19100
    {
    }
  }

  /**
   * A release that runs while a start is on its way loses a port, too: all operations end with
   * the port on a lease that is out of the table, where nobody will give it back.
   */
  lemma {:induction false} ReleaseOverlapLosesPort()
    ensures exists run :: Legal(Init(), run) && Run(Init(), run).ops == map[] && !Accounted(Run(Init(), run), Mobile)
  {
    StartIsCommitted();
    LeftoverIsUnaccounted();
    var run :| Legal(Init(), run) && Run(Init(), run) == Leftover();
    assert Run(Init(), run).ops == map[];
  }
}
