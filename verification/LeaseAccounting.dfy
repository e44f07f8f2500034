/**
 * Port accounting: when starts and releases of one lease do not overlap, the used ports
 * are exactly those of the leases in the table and of the operations in flight, even
 * though sessions end on their own and stops run at any time. An overlap can lose a port.
 */
module LeaseAccounting {
  import opened Seqs
  import PortRange
  import opened ProxyLeases
  import opened LeaseSafety

  /** Starting or releasing a lease, up to the point where the lease is committed or removed. */
  predicate Engaged(p: Phase) {
    Starting(p) || p.ReleaseFound? || p.ReleaseStopping? || p.ReleaseStopped?
  }

  predicate Starting(p: Phase) {
    p.StartFound? || p.StartHolding? || p.StartLive?
  }

  predicate HoldsMobile(p: Phase) {
    p.StartHolding? || p.StartLive?
  }

  /** No start or release of a lease begins while another one of it is under way. */
  ghost predicate TakesTurns(s: Service, step: Step) {
    step.StartLookup? || step.ReleaseLookup? ==>
      forall o :: o in s.ops && Engaged(s.ops[o].phase) ==> s.ops[o].lease != step.id
  }

  ghost predicate Orderly(s: Service, run: seq<(Id, Step)>)
    requires Legal(s, run)
    decreases |run|
  {
    run == [] || (TakesTurns(s, run[0].1) && Orderly(Apply(s, run[0].0, run[0].1), run[1..]))
  }

  predicate BeingReclaimed(s: Service, id: Id, o: Id) {
    o in s.ops && s.ops[o].phase.Reclaiming? && s.ops[o].lease == id
  }

  /** Someone who will still give ports back: an operation, a lease in the table, or one being reclaimed. */
  ghost predicate Live(s: Service, h: Holder) {
    match h
    case OfOp(_) => true
    case OfLease(id) => id in s.table || exists o :: BeingReclaimed(s, id, o)
  }

  /** The used ports are exactly the ports of live holders. */
  ghost predicate Accounted(s: Service, k: Kind) {
    forall p :: p in Used(s, k) <==> p != 0 && exists h :: Live(s, h) && Port(s, k, h) == p
  }

  ghost predicate OneAtATime(s: Service) {
    && (forall a, b | a in s.ops && b in s.ops && Engaged(s.ops[a].phase) && Engaged(s.ops[b].phase) ::
          s.ops[a].lease == s.ops[b].lease ==> a == b)
    && (forall o | o in s.ops && Starting(s.ops[o].phase) :: s.ops[o].lease in s.table)
    && (forall o | o in s.ops && HoldsMobile(s.ops[o].phase) && s.ops[o].lease in s.leases ::
          s.leases[s.ops[o].lease].ports.mobile == 0)
  }

  /** A lease out of the table keeps a port only while it is being reclaimed. */
  ghost predicate DeadHoldNothing(s: Service) {
    forall id :: id in s.leases && id !in s.table && s.leases[id].ports.mobile != 0 ==>
      exists o :: BeingReclaimed(s, id, o)
  }

  ghost predicate Serial(s: Service) {
    Inv(s) && OneAtATime(s) && DeadHoldNothing(s) && forall k :: Exact(s, k)
  }

  // ---- starts and releases of one lease stay one at a time ----------------------------

  /** An operation changes phase; if it is engaged it was engaged on that lease, or found it idle. */
  lemma {:induction false} OneWhenOpMoves(s: Service, o: Id, op: Op)
    requires OneAtATime(s)
    requires Engaged(op.phase) ==>
               || (o in s.ops && Engaged(s.ops[o].phase) && s.ops[o].lease == op.lease)
               || (forall a :: a in s.ops && Engaged(s.ops[a].phase) ==> s.ops[a].lease != op.lease)
    requires Starting(op.phase) ==> op.lease in s.table
    requires HoldsMobile(op.phase) && op.lease in s.leases ==>
               s.leases[op.lease].ports.mobile == 0
    ensures OneAtATime(SetOp(s, o, op))
  {
  }

  lemma {:induction false} OneWhenOpLeaves(s: Service, o: Id)
    requires OneAtATime(s)
    ensures OneAtATime(EndOp(s, o))
  {
  }

  /** The lease table changes under the operations in flight. */
  lemma {:induction false} OneWhenLeasesChange(s: Service, s': Service)
    requires OneAtATime(s) && s'.ops == s.ops
    requires forall o | o in s.ops && Starting(s.ops[o].phase) :: s.ops[o].lease in s'.table
    requires forall o | o in s.ops && HoldsMobile(s.ops[o].phase) && s.ops[o].lease in s'.leases ::
               s'.leases[s.ops[o].lease].ports.mobile == 0
    ensures OneAtATime(s')
  {
  }

  lemma {:induction false} OneQuiet(s: Service, o: Id, step: Step)
    requires Shape(s) && OneAtATime(s) && Enabled(s, o, step) && TakesTurns(s, step) && Quiet(step)
    ensures OneAtATime(Apply(s, o, step))
  {
    QuietShape(s, o, step);
    QuietPhase(s, o, step);
    var s' := Apply(s, o, step);
    if o in s'.ops && s' == SetOp(s, o, s'.ops[o]) {
      OneWhenOpMoves(s, o, s'.ops[o]);
    } else {
      OneWhenOpLeaves(s, o);
    }
  }

  /** A quiet step engages an operation only by a lookup, and otherwise keeps its lease. */
  lemma {:induction false} QuietPhase(s: Service, o: Id, step: Step)
    requires Ready(s) && Enabled(s, o, step) && Quiet(step)
    ensures var s' := Apply(s, o, step);
            o in s'.ops && Engaged(s'.ops[o].phase) ==>
              if step.StartLookup? || step.ReleaseLookup? then
                s'.ops[o].lease == step.id && step.id in s.table && !HoldsMobile(s'.ops[o].phase)
              else
                && o in s.ops && Engaged(s.ops[o].phase) && s'.ops[o].lease == s.ops[o].lease
                && (Starting(s'.ops[o].phase) ==> s.ops[o].phase.StartHolding?)
  {
  }

  lemma {:induction false} OneStartAllocate(s: Service, o: Id, agentRunning: bool)
    requires Shape(s) && OneAtATime(s) && Enabled(s, o, StartAllocate(agentRunning))
    ensures OneAtATime(DoStartAllocate(s, o, agentRunning))
  {
    var s' := DoStartAllocate(s, o, agentRunning);
    if o in s'.ops {
      OneWhenOpMoves(s, o, s'.ops[o]);
      OneWhenLeasesChange(SetOp(s, o, s'.ops[o]), s');
    } else {
      OneWhenOpLeaves(s, o);
    }
  }

  lemma {:induction false} OneStartCommit(s: Service, o: Id)
    requires OneAtATime(s) && Enabled(s, o, StartCommit)
    ensures OneAtATime(DoStartCommit(s, o))
  {
    OneWhenOpLeaves(s, o);
    OneWhenLeasesChange(EndOp(s, o), DoStartCommit(s, o));
  }

  lemma {:induction false} OneReclaimRemove(s: Service, o: Id)
    requires OneAtATime(s) && Enabled(s, o, ReclaimRemove)
    ensures OneAtATime(DoReclaimRemove(s, o))
  {
    var s' := DoReclaimRemove(s, o);
    if s.ops[o].lease in s.table {
      OneWhenOpMoves(s, o, s'.ops[o]);
      OneWhenLeasesChange(SetOp(s, o, s'.ops[o]), s');
    } else {
      OneWhenOpLeaves(s, o);
    }
  }

  /** An operation that is not engaged goes on; leases keep their mobile port or give it up. */
  lemma {:induction false} OneElsewhere(s: Service, s': Service, o: Id)
    requires Shape(s) && OneAtATime(s)
    requires s'.ops == if o in s'.ops then s.ops[o := s'.ops[o]] else s.ops - {o}
    requires o in s'.ops ==> !Engaged(s'.ops[o].phase)
    requires s.table <= s'.table && s.leases.Keys <= s'.leases.Keys
    requires forall id :: id in s.leases ==>
               s'.leases[id].ports.mobile == s.leases[id].ports.mobile || s'.leases[id].ports.mobile == 0
    ensures OneAtATime(s')
  {
    if o in s'.ops {
      OneWhenOpMoves(s, o, s'.ops[o]);
      OneWhenLeasesChange(SetOp(s, o, s'.ops[o]), s');
    } else {
      OneWhenOpLeaves(s, o);
      OneWhenLeasesChange(EndOp(s, o), s');
    }
  }

  lemma {:induction false} OneCreateAllocate(s: Service, o: Id)
    requires Shape(s) && OneAtATime(s) && Enabled(s, o, CreateAllocate)
    ensures OneAtATime(DoCreateAllocate(s, o))
  {
    CreateAllocateResult(s, o);
    assert DoCreateAllocate(s, o).table == s.table;
    OneElsewhere(s, DoCreateAllocate(s, o), o);
  }

  lemma {:induction false} OneCreateInsert(s: Service, o: Id, id: Id)
    requires Shape(s) && OneAtATime(s) && Enabled(s, o, CreateInsert(id))
    ensures OneAtATime(DoCreateInsert(s, o, id))
  {
    OneElsewhere(s, DoCreateInsert(s, o, id), o);
  }

  lemma {:induction false} OneGivesUp(s: Service, o: Id, step: Step)
    requires Shape(s) && OneAtATime(s) && Enabled(s, o, step)
    requires step.ReclaimMobile? || step.Clear? || step.Free?
    ensures OneAtATime(Apply(s, o, step))
  {
    match step
    case ReclaimMobile => OneElsewhere(s, DoReclaimMobile(s, o), o);
    case Clear(hit) => OneElsewhere(s, DoClear(s, o, hit), o);
    case Free(kind) => OneElsewhere(s, DoFree(s, o, kind), o);
  }

  lemma {:induction false} OneAtATimeStep(s: Service, o: Id, step: Step)
    requires Shape(s) && OneAtATime(s) && Enabled(s, o, step) && TakesTurns(s, step)
    ensures OneAtATime(Apply(s, o, step))
  {
    if Quiet(step) {
      OneQuiet(s, o, step);
    } else {
      match step
      case StartAllocate(agentRunning) => OneStartAllocate(s, o, agentRunning);
      case StartCommit => OneStartCommit(s, o);
      case ReclaimRemove => OneReclaimRemove(s, o);
      case CreateAllocate => OneCreateAllocate(s, o);
      case CreateInsert(id) => OneCreateInsert(s, o, id);
      case _ => OneGivesUp(s, o, step);
    }
  }

  // ---- leases out of the table --------------------------------------------------------

  /**
   * One operation moves on: a lease out of the table that keeps a port did so before, and
   * if that operation was reclaiming it, it still is; or the operation reclaims it now.
   */
  lemma {:induction false} DeadWhenOpMoves(s: Service, s': Service, o: Id)
    requires DeadHoldNothing(s)
    requires s'.ops == if o in s'.ops then s.ops[o := s'.ops[o]] else s.ops - {o}
    requires forall id :: id in s'.leases && id !in s'.table && s'.leases[id].ports.mobile != 0 ==>
               || (id in s.leases && id !in s.table && s.leases[id].ports.mobile != 0
                   && (BeingReclaimed(s, id, o) ==> BeingReclaimed(s', id, o)))
               || BeingReclaimed(s', id, o)
    ensures DeadHoldNothing(s')
  {
    forall id | id in s'.leases && id !in s'.table && s'.leases[id].ports.mobile != 0
      ensures exists a :: BeingReclaimed(s', id, a)
    {
      if !BeingReclaimed(s', id, o) {
        var a :| BeingReclaimed(s, id, a);
        assert BeingReclaimed(s', id, a);
      }
    }
  }

  lemma {:induction false} DeadStep(s: Service, o: Id, step: Step)
    requires Shape(s) && OneAtATime(s) && DeadHoldNothing(s) && Enabled(s, o, step)
    ensures DeadHoldNothing(Apply(s, o, step))
  {
    if Quiet(step) {
      QuietShape(s, o, step);
      DeadWhenOpMoves(s, Apply(s, o, step), o);
    } else {
      DeadBusyStep(s, o, step);
    }
  }

  lemma {:induction false} DeadBusyStep(s: Service, o: Id, step: Step)
    requires Shape(s) && OneAtATime(s) && DeadHoldNothing(s) && Enabled(s, o, step) && !Quiet(step)
    ensures DeadHoldNothing(Apply(s, o, step))
  {
    match step
    case CreateAllocate => DeadAllocate(s, o);
    case CreateInsert(id) => DeadInsert(s, o, id);
    case StartAllocate(agentRunning) => DeadStartAllocate(s, o, agentRunning);
    case StartCommit => DeadCommit(s, o);
    case ReclaimRemove => DeadRemove(s, o);
    case ReclaimMobile => DeadReclaim(s, o);
    case Clear(hit) => DeadClear(s, o, hit);
    case Free(kind) => DeadFree(s, o, kind);
  }

  lemma {:induction false} DeadInsert(s: Service, o: Id, id: Id)
    requires Shape(s) && DeadHoldNothing(s) && Enabled(s, o, CreateInsert(id))
    ensures DeadHoldNothing(DoCreateInsert(s, o, id))
  {
    DeadWhenOpMoves(s, DoCreateInsert(s, o, id), o);
  }

  lemma {:induction false} DeadStartAllocate(s: Service, o: Id, agentRunning: bool)
    requires Shape(s) && DeadHoldNothing(s) && Enabled(s, o, StartAllocate(agentRunning))
    ensures DeadHoldNothing(DoStartAllocate(s, o, agentRunning))
  {
    DeadWhenOpMoves(s, DoStartAllocate(s, o, agentRunning), o);
  }

  lemma {:induction false} DeadCommit(s: Service, o: Id)
    requires Shape(s) && OneAtATime(s) && DeadHoldNothing(s) && Enabled(s, o, StartCommit)
    ensures DeadHoldNothing(DoStartCommit(s, o))
  {
    DeadWhenOpMoves(s, DoStartCommit(s, o), o);
  }

  lemma {:induction false} DeadRemove(s: Service, o: Id)
    requires Shape(s) && DeadHoldNothing(s) && Enabled(s, o, ReclaimRemove)
    ensures DeadHoldNothing(DoReclaimRemove(s, o))
  {
    DeadWhenOpMoves(s, DoReclaimRemove(s, o), o);
  }

  lemma {:induction false} DeadReclaim(s: Service, o: Id)
    requires Shape(s) && DeadHoldNothing(s) && Enabled(s, o, ReclaimMobile)
    ensures DeadHoldNothing(DoReclaimMobile(s, o))
  {
    DeadWhenOpMoves(s, DoReclaimMobile(s, o), o);
  }

  lemma {:induction false} DeadClear(s: Service, o: Id, hit: Option<Id>)
    requires Shape(s) && DeadHoldNothing(s) && Enabled(s, o, Clear(hit))
    ensures DeadHoldNothing(DoClear(s, o, hit))
  {
    DeadWhenOpMoves(s, DoClear(s, o, hit), o);
  }

  lemma {:induction false} DeadFree(s: Service, o: Id, kind: Kind)
    requires Shape(s) && DeadHoldNothing(s) && Enabled(s, o, Free(kind))
    ensures DeadHoldNothing(DoFree(s, o, kind))
  {
    DeadWhenOpMoves(s, DoFree(s, o, kind), o);
  }

  lemma {:induction false} DeadAllocate(s: Service, o: Id)
    requires Shape(s) && DeadHoldNothing(s) && Enabled(s, o, CreateAllocate)
    ensures DeadHoldNothing(DoCreateAllocate(s, o))
  {
    CreateAllocateResult(s, o);
    DeadWhenOpMoves(s, DoCreateAllocate(s, o), o);
  }

  // ---- no port is lost ----------------------------------------------------------------

  lemma {:induction false} SerialStep(s: Service, o: Id, step: Step)
    requires Serial(s) && Enabled(s, o, step) && TakesTurns(s, step)
    ensures Serial(Apply(s, o, step))
  {
    HoldingStep(s, o, step);
    LimitedStep(s, o, step);
    OneAtATimeStep(s, o, step);
    DeadStep(s, o, step);
  }

  lemma {:induction false} OrderlyRun(s: Service, run: seq<(Id, Step)>)
    requires Serial(s) && Legal(s, run) && Orderly(s, run)
    ensures Serial(Run(s, run))
    decreases |run|
  {
    if run != [] {
      SerialStep(s, run[0].0, run[0].1);
      OrderlyRun(Apply(s, run[0].0, run[0].1), run[1..]);
    }
  }

  lemma {:induction false} SerialIsAccounted(s: Service, k: Kind)
    requires Serial(s)
    ensures Accounted(s, k)
  {
    NoZero(s, k);
    forall p | p in Used(s, k)
      ensures exists h :: Live(s, h) && Port(s, k, h) == p
    {
      assert Exact(s, k);
      var h :| Port(s, k, h) == p;
      if h.OfLease? && h.id !in s.table {
        assert LeaseFits(h.id, s.leases[h.id], s.table, s.agentsExhausted);
        assert k == Mobile;
      }
      assert Live(s, h);
    }
    assert Sound(s, k);
  }

  /**
   * If starts and releases of one lease take turns, then however sessions end, stops run and
   * creates fail, the used ports of every range are exactly the ports of leases in the table
   * (or being reclaimed) and of operations in flight.
   */
  lemma NoPortIsLost(run: seq<(Id, Step)>, k: Kind)
    requires Legal(Init(), run) && Orderly(Init(), run)
    ensures Accounted(Run(Init(), run), k)
  {
    InitInv();
    OrderlyRun(Init(), run);
    SerialIsAccounted(Run(Init(), run), k);
  }

  /** Once nothing is in flight, the used ports are those of the leases in the table. */
  lemma QuiescentPorts(run: seq<(Id, Step)>, k: Kind, p: int)
    requires Legal(Init(), run) && Orderly(Init(), run) && Run(Init(), run).ops == map[]
    ensures var s := Run(Init(), run);
            p in Used(s, k) <==> p != 0 && exists id :: id in s.table && Port(s, k, OfLease(id)) == p
  {
    var s := Run(Init(), run);
    NoPortIsLost(run, k);
    if p in Used(s, k) {
      var h :| Live(s, h) && Port(s, k, h) == p;
    }
    if id :| id in s.table && Port(s, k, OfLease(id)) == p {
      assert Live(s, OfLease(id));
    }
  }

  // ---- when a start loses a port ------------------------------------------------------

  /** The lease a start commits to is still going to give ports back, and holds no mobile port. */
  ghost predicate CommitKeepsPorts(s: Service, o: Id)
    requires o in s.ops && s.ops[o].lease in s.leases
  {
    s.leases[s.ops[o].lease].ports.mobile == 0 && Live(s, OfLease(s.ops[o].lease))
  }

  lemma {:induction false} CommitMoves(s: Service, o: Id)
    requires Shape(s) && Enabled(s, o, StartCommit)
    ensures Passed(s, DoStartCommit(s, o), Mobile, OfOp(o), OfLease(s.ops[o].lease))
    ensures Port(s, Mobile, OfOp(o)) != 0
    ensures forall h :: h != OfOp(o) ==> (Live(DoStartCommit(s, o), h) <==> Live(s, h))
  {
    var s' := DoStartCommit(s, o);
    assert OpFits(s.ops[o], s.table, s.leases, s.agentsExhausted);
    forall id
      ensures Live(s', OfLease(id)) <==> Live(s, OfLease(id))
    {
      forall a
        ensures BeingReclaimed(s', id, a) <==> BeingReclaimed(s, id, a)
      {
      }
    }
  }

  /**
   * Committing a start keeps the mobile ports accounted for if and only if the lease had no
   * mobile port and is still in the table, or on its way out of it. Otherwise a port stays
   * used although nobody will give it back: the old one, overwritten, or the new one, on a
   * lease that is gone.
   */
  lemma {:induction false} CommitLosesPortIff(s: Service, o: Id)
    requires Inv(s) && Accounted(s, Mobile) && Enabled(s, o, StartCommit)
    ensures Accounted(DoStartCommit(s, o), Mobile) <==> CommitKeepsPorts(s, o)
  {
    var s' := DoStartCommit(s, o);
    var op, lease := OfOp(o), OfLease(s.ops[o].lease);
    CommitMoves(s, o);
    assert Sound(s, Mobile);
    if CommitKeepsPorts(s, o) {
      StartCommitStep(s, o);
      NoZero(s, Mobile);
      forall p | p in Used(s', Mobile)
        ensures exists h :: Live(s', h) && Port(s', Mobile, h) == p
      {
        var h :| Live(s, h) && Port(s, Mobile, h) == p;
        var g := if h == op then lease else h;
        assert Live(s', g) && Port(s', Mobile, g) == p;
      }
      assert Sound(s', Mobile);
    } else if !Live(s, lease) {
      var p := Port(s, Mobile, op);
      assert p in Used(s', Mobile);
      forall h | Live(s', h)
        ensures Port(s', Mobile, h) != p
      {
        if h == op {
          assert Port(s', Mobile, h) == 0;
        } else {
          assert Port(s, Mobile, h) != p;
        }
      }
    } else {
      var q := Port(s, Mobile, lease);
      assert q in Used(s', Mobile);
      forall h | Live(s', h)
        ensures Port(s', Mobile, h) != q
      {
        if h != op && h != lease {
          assert Port(s, Mobile, h) != q;
        } else {
          assert Port(s, Mobile, op) != q;
        }
      }
    }
  }
}
