/**
 * What every interleaving of the lease operations keeps: no port is held twice, held
 * ports are marked used, owners stay within their limit; and, as long as starts and
 * releases of one lease do not overlap, no port is ever lost.
 */
module LeaseSafety {
  import opened Seqs
  import PortRange
  import opened ProxyLeases

  datatype Holder = OfLease(id: Id) | OfOp(o: Id)

  /** The port of kind `k` that `h` will give back; 0 is none. */
  function Port(s: Service, k: Kind, h: Holder): int {
    match h
    case OfLease(id) => if id in s.leases then s.leases[id].ports.Get(k) else 0
    case OfOp(o) => if o in s.ops then s.ops[o].ports.Get(k) else 0
  }

  function Used(s: Service, k: Kind): set<int> {
    s.ranges.Get(k).used
  }

  /** Held ports are marked used, and no two holders hold the same one. */
  ghost predicate Sound(s: Service, k: Kind) {
    && (forall h :: Port(s, k, h) != 0 ==> Port(s, k, h) in Used(s, k))
    && (forall g, h :: Port(s, k, g) == Port(s, k, h) && Port(s, k, h) != 0 ==> g == h)
  }

  /** Every used port is held by someone. */
  ghost predicate Exact(s: Service, k: Kind) {
    forall p :: p in Used(s, k) ==> exists h :: Port(s, k, h) == p
  }

  // ---- the ways a port changes hands --------------------------------------------------

  /** `from`'s port passes to `to`; what `to` held before is forgotten. */
  ghost predicate Passed(s: Service, s': Service, k: Kind, from: Holder, to: Holder) {
    && Used(s', k) == Used(s, k)
    && forall h :: Port(s', k, h) == if h == to then Port(s, k, from) else if h == from then 0 else Port(s, k, h)
  }

  lemma PassedIsSound(s: Service, s': Service, k: Kind, from: Holder, to: Holder)
    requires Sound(s, k) && Passed(s, s', k, from, to)
    ensures Sound(s', k)
    ensures Port(s, k, to) == 0 && from != to && 0 !in Used(s, k) && Exact(s, k) ==> Exact(s', k)
  {
    if Port(s, k, to) == 0 && from != to && 0 !in Used(s, k) && Exact(s, k) {
      forall p | p in Used(s', k)
        ensures exists h :: Port(s', k, h) == p
      {
        var h :| Port(s, k, h) == p;
        assert Port(s', k, if h == from then to else h) == p;
      }
    }
  }

  /** `to` takes the free port p. */
  ghost predicate Taken(s: Service, s': Service, k: Kind, to: Holder, p: int) {
    && p !in Used(s, k) && p != 0
    && Used(s', k) == Used(s, k) + {p}
    && forall h :: Port(s', k, h) == if h == to then p else Port(s, k, h)
  }

  lemma TakenIsSound(s: Service, s': Service, k: Kind, to: Holder, p: int)
    requires Sound(s, k) && Taken(s, s', k, to, p) && Port(s, k, to) == 0
    ensures Sound(s', k)
    ensures 0 !in Used(s, k) && Exact(s, k) ==> Exact(s', k)
  {
    if 0 !in Used(s, k) && Exact(s, k) {
      forall q | q in Used(s', k)
        ensures exists h :: Port(s', k, h) == q
      {
        if q == p {
          assert Port(s', k, to) == p;
        } else {
          var h :| Port(s, k, h) == q;
          assert Port(s', k, h) == q;
        }
      }
    }
  }

  /** `from` gives its port back. */
  ghost predicate Freed(s: Service, s': Service, k: Kind, from: Holder) {
    && Used(s', k) == Used(s, k) - {Port(s, k, from)}
    && forall h :: Port(s', k, h) == if h == from then 0 else Port(s, k, h)
  }

  lemma FreedIsSound(s: Service, s': Service, k: Kind, from: Holder)
    requires Sound(s, k) && Freed(s, s', k, from)
    ensures Sound(s', k)
    ensures Exact(s, k) ==> Exact(s', k)
  {
    if Exact(s, k) {
      forall p | p in Used(s', k)
        ensures exists h :: Port(s', k, h) == p
      {
        var h :| Port(s, k, h) == p;
        assert Port(s', k, h) == p;
      }
    }
  }

  /** Nothing changes hands. */
  ghost predicate Kept(s: Service, s': Service, k: Kind) {
    Used(s', k) == Used(s, k) && forall h :: Port(s', k, h) == Port(s, k, h)
  }

  lemma KeptIsSound(s: Service, s': Service, k: Kind)
    requires Sound(s, k) && Kept(s, s', k)
    ensures Sound(s', k)
    ensures Exact(s, k) ==> Exact(s', k)
  {
    if Exact(s, k) {
      forall p | p in Used(s', k)
        ensures exists h :: Port(s', k, h) == p
      {
        var h :| Port(s, k, h) == p;
        assert Port(s', k, h) == p;
      }
    }
  }

  // ---- invariant of every interleaving ------------------------------------------------

  /** What an operation may hold in each phase. */
  predicate HoldsByPhase(op: Op) {
    match op.phase
    case Equipped(_, _) => op.ports.control != 0 && op.ports.mobile == 0
    case StartHolding => op.ports.agent == 0 && op.ports.control == 0 && op.ports.mobile != 0
    case StartLive(_) => op.ports.agent == 0 && op.ports.control == 0 && op.ports.mobile != 0
    case Reclaiming => op.ports.mobile == 0
    case Freeing => true
    case _ => op.ports == NOTHING
  }

  /** An operation fits the tables. */
  predicate OpFits(op: Op, table: set<Id>, leases: map<Id, Lease>, agentsExhausted: bool) {
    && HoldsByPhase(op)
    && (op.phase.Equipped? && op.ports.agent == 0 ==> agentsExhausted)
    && (op.phase.Reclaiming? ==> op.lease in leases && op.lease !in table)
  }

  /** A lease is complete while it is in the table; afterwards only its mobile port may remain. */
  predicate LeaseFits(id: Id, l: Lease, table: set<Id>, agentsExhausted: bool) {
    if id in table then
      && l.ports.control != 0
      && (l.ports.agent == 0 ==> agentsExhausted)
      && (l.session.Some? <==> l.ports.mobile != 0)
    else
      l.ports.agent == 0 && l.ports.control == 0
  }

  ghost predicate Shape(s: Service) {
    && Ready(s)
    && s.table <= s.leases.Keys
    && (forall o :: o in s.ops ==> OpFits(s.ops[o], s.table, s.leases, s.agentsExhausted))
    && (forall id :: id in s.leases ==> LeaseFits(id, s.leases[id], s.table, s.agentsExhausted))
  }

  ghost predicate Limited(s: Service) {
    forall owner :: |OwnedBy(s, owner)| <= MAX_LEASES_PER_OWNER
  }

  ghost predicate Inv(s: Service) {
    Shape(s) && Limited(s) && forall k :: Sound(s, k)
  }

  lemma InitInv()
    ensures Inv(Init())
  {
    forall owner
      ensures |OwnedBy(Init(), owner)| <= MAX_LEASES_PER_OWNER
    {
      assert OwnedBy(Init(), owner) == {};
    }
  }

  /** Ports are positive numbers, so 0 is never marked used. */
  lemma NoZero(s: Service, k: Kind)
    requires Ready(s)
    ensures 0 !in Used(s, k) && s.ranges.Get(k).Valid()
  {
  }

  // ---- each kind of step --------------------------------------------------------------

  /** The step keeps the shape, and every kind of port stays soundly and exactly held. */
  ghost predicate Fine(s: Service, s': Service) {
    Shape(s') && forall k :: Sound(s', k) && (Exact(s, k) ==> Exact(s', k))
  }

  /** An operation moves on, or begins, without its ports changing. */
  lemma {:induction false} OpMovesOn(s: Service, o: Id, op: Op)
    requires Shape(s) && (forall k :: Sound(s, k))
    requires OpFits(op, s.table, s.leases, s.agentsExhausted)
    requires op.ports == if o in s.ops then s.ops[o].ports else NOTHING
    ensures Fine(s, SetOp(s, o, op))
  {
    forall k: Kind
      ensures Sound(SetOp(s, o, op), k) && (Exact(s, k) ==> Exact(SetOp(s, o, op), k))
    {
      KeptIsSound(s, SetOp(s, o, op), k);
    }
  }

  lemma {:induction false} OpLeaves(s: Service, o: Id)
    requires Shape(s) && (forall k :: Sound(s, k))
    requires o in s.ops && s.ops[o].ports == NOTHING
    ensures Fine(s, EndOp(s, o))
  {
    forall k: Kind
      ensures Sound(EndOp(s, o), k) && (Exact(s, k) ==> Exact(EndOp(s, o), k))
    {
      KeptIsSound(s, EndOp(s, o), k);
    }
  }

  /** One port is allocated to an operation that held none of its kind. */
  lemma {:induction false} OpTakes(s: Service, o: Id, op: Op, k: Kind, p: int, rest: PortRange.Ports)
    requires Shape(s) && (forall j :: Sound(s, j)) && o in s.ops
    requires rest.Valid() && p !in Used(s, k) && p != 0 && rest.used == Used(s, k) + {p}
    requires s.ops[o].ports.Get(k) == 0 && op.ports.Get(k) == p
    requires forall j: Kind :: j != k ==> op.ports.Get(j) == s.ops[o].ports.Get(j)
    requires OpFits(op, s.table, s.leases, s.agentsExhausted)
    ensures Fine(s, SetOp(s, o, op).(ranges := s.ranges.With(k, rest)))
  {
    var s' := SetOp(s, o, op).(ranges := s.ranges.With(k, rest));
    NoZero(s, k);
    forall j: Kind
      ensures Sound(s', j) && (Exact(s, j) ==> Exact(s', j))
    {
      if j == k {
        TakenIsSound(s, s', k, OfOp(o), p);
      } else {
        KeptIsSound(s, s', j);
      }
    }
  }

  lemma {:induction false} FreeMoves(s: Service, o: Id, k: Kind, j: Kind)
    requires Ready(s) && Sound(s, j) && Enabled(s, o, Free(k))
    ensures var s' := DoFree(s, o, k); Sound(s', j) && (Exact(s, j) ==> Exact(s', j))
  {
    if j == k {
      FreedIsSound(s, DoFree(s, o, k), k, OfOp(o));
    } else {
      KeptIsSound(s, DoFree(s, o, k), j);
    }
  }

  lemma {:induction false} FreeStep(s: Service, o: Id, k: Kind)
    requires Shape(s) && (forall j :: Sound(s, j)) && Enabled(s, o, Free(k))
    ensures Fine(s, DoFree(s, o, k))
  {
    forall j: Kind
      ensures Sound(DoFree(s, o, k), j) && (Exact(s, j) ==> Exact(DoFree(s, o, k), j))
    {
      FreeMoves(s, o, k, j);
    }
  }

  lemma {:induction false} StartAllocateStep(s: Service, o: Id, agentRunning: bool)
    requires Shape(s) && (forall j :: Sound(s, j)) && Enabled(s, o, StartAllocate(agentRunning))
    ensures Fine(s, DoStartAllocate(s, o, agentRunning))
  {
    var op := s.ops[o];
    var (port, mobiles) := PortRange.Allocate(s.ranges.mobile);
    PortRange.AllocateTakesNextFree(s.ranges.mobile);
    if s.leases[op.lease].session.Some? || !agentRunning || port.None? {
      OpLeaves(s, o);
    } else {
      OpTakes(s, o, Op(StartHolding, op.lease, Claim(0, 0, port.value)), Mobile, port.value, mobiles);
    }
  }

  /** Committing hands the mobile port to the lease; nothing is lost if the lease held none. */
  lemma {:induction false} StartCommitStep(s: Service, o: Id)
    requires Shape(s) && (forall j :: Sound(s, j)) && Enabled(s, o, StartCommit)
    ensures var s' := DoStartCommit(s, o);
            && Shape(s')
            && forall k :: Sound(s', k)
                           && (Exact(s, k) && s.leases[s.ops[o].lease].ports.mobile == 0 ==> Exact(s', k))
  {
    var s' := DoStartCommit(s, o);
    var id := s.ops[o].lease;
    forall k: Kind
      ensures Sound(s', k) && (Exact(s, k) && s.leases[id].ports.mobile == 0 ==> Exact(s', k))
    {
      NoZero(s, k);
      if k == Mobile {
        PassedIsSound(s, s', k, OfOp(o), OfLease(id));
      } else {
        KeptIsSound(s, s', k);
      }
    }
  }

  lemma {:induction false} ReclaimRemoveMoves(s: Service, o: Id, k: Kind)
    requires Ready(s) && Sound(s, k) && Enabled(s, o, ReclaimRemove)
    requires s.ops[o].ports == NOTHING && s.ops[o].lease in s.table
    ensures var s' := DoReclaimRemove(s, o); Sound(s', k) && (Exact(s, k) ==> Exact(s', k))
  {
    NoZero(s, k);
    if k == Mobile {
      KeptIsSound(s, DoReclaimRemove(s, o), k);
    } else {
      PassedIsSound(s, DoReclaimRemove(s, o), k, OfLease(s.ops[o].lease), OfOp(o));
    }
  }

  lemma {:induction false} ReclaimRemoveStep(s: Service, o: Id)
    requires Shape(s) && (forall j :: Sound(s, j)) && Enabled(s, o, ReclaimRemove)
    ensures Fine(s, DoReclaimRemove(s, o))
  {
    if s.ops[o].lease !in s.table {
      OpLeaves(s, o);
    } else {
      forall k: Kind
        ensures Sound(DoReclaimRemove(s, o), k) && (Exact(s, k) ==> Exact(DoReclaimRemove(s, o), k))
      {
        ReclaimRemoveMoves(s, o, k);
      }
    }
  }

  lemma {:induction false} ReclaimMobileMoves(s: Service, o: Id, k: Kind)
    requires Ready(s) && Sound(s, k) && Enabled(s, o, ReclaimMobile)
    requires s.ops[o].ports == NOTHING
    requires s.leases[s.ops[o].lease].ports.agent == 0 && s.leases[s.ops[o].lease].ports.control == 0
    ensures var s' := DoReclaimMobile(s, o); Sound(s', k) && (Exact(s, k) ==> Exact(s', k))
  {
    NoZero(s, k);
    if k == Mobile {
      PassedIsSound(s, DoReclaimMobile(s, o), k, OfLease(s.ops[o].lease), OfOp(o));
    } else {
      KeptIsSound(s, DoReclaimMobile(s, o), k);
    }
  }

  lemma {:induction false} ReclaimMobileStep(s: Service, o: Id)
    requires Shape(s) && (forall j :: Sound(s, j)) && Enabled(s, o, ReclaimMobile)
    ensures Fine(s, DoReclaimMobile(s, o))
  {
    forall k: Kind
      ensures Sound(DoReclaimMobile(s, o), k) && (Exact(s, k) ==> Exact(DoReclaimMobile(s, o), k))
    {
      ReclaimMobileMoves(s, o, k);
    }
  }

  lemma {:induction false} ClearMoves(s: Service, o: Id, id: Id, k: Kind)
    requires Ready(s) && Sound(s, k) && Enabled(s, o, Clear(Some(id))) && s.ops[o].ports == NOTHING
    ensures var s' := DoClear(s, o, Some(id)); Sound(s', k) && (Exact(s, k) ==> Exact(s', k))
  {
    NoZero(s, k);
    if k == Mobile {
      PassedIsSound(s, DoClear(s, o, Some(id)), k, OfLease(id), OfOp(o));
    } else {
      KeptIsSound(s, DoClear(s, o, Some(id)), k);
    }
  }

  lemma {:induction false} ClearStep(s: Service, o: Id, hit: Option<Id>)
    requires Shape(s) && (forall j :: Sound(s, j)) && Enabled(s, o, Clear(hit))
    ensures Fine(s, DoClear(s, o, hit))
  {
    if hit.None? {
      OpLeaves(s, o);
    } else {
      forall k: Kind
        ensures Sound(DoClear(s, o, hit), k) && (Exact(s, k) ==> Exact(DoClear(s, o, hit), k))
      {
        ClearMoves(s, o, hit.value, k);
      }
    }
  }

  /** allocateAgentPortLocked hands out a free port, and 0 exactly when the whole range is taken. */
  lemma AgentPortMissingIff(s: Service, owner: string, device: string, noSticky: bool)
    requires Ready(s)
    ensures var (agent, rest) := PickAgent(s, owner, device, noSticky);
            && rest.Valid()
            && (agent == 0 <==> PortRange.Full(s.ranges.agent))
            && (agent == 0 ==> rest == s.ranges.agent)
            && (agent != 0 ==> agent !in s.ranges.agent.used && rest.used == s.ranges.agent.used + {agent})
  {
    PortRange.AllocateTakesNextFree(s.ranges.agent);
  }

  lemma {:induction false} CreateAllocateStep(s: Service, o: Id)
    requires Shape(s) && (forall j :: Sound(s, j)) && Enabled(s, o, CreateAllocate)
    ensures Fine(s, DoCreateAllocate(s, o))
  {
    CreateAllocateShape(s, o);
    forall k: Kind
      ensures Sound(DoCreateAllocate(s, o), k) && (Exact(s, k) ==> Exact(DoCreateAllocate(s, o), k))
    {
      CreateAllocateMoves(s, o, k);
    }
  }

  /** The ports after the two allocations: taken by the operation, or all as before. */
  lemma {:induction false} CreateAllocateResult(s: Service, o: Id)
    requires Ready(s) && Enabled(s, o, CreateAllocate) && s.ops[o].ports == NOTHING
    ensures var s' := DoCreateAllocate(s, o);
            && s'.leases == s.leases
            && s'.ranges.mobile.used == s.ranges.mobile.used
            && if o in s'.ops then
                 var c := s'.ops[o].ports;
                 && s'.ops == s.ops[o := s'.ops[o]]
                 && c.mobile == 0 && c.control != 0
                 && c.control !in s.ranges.control.used
                 && s'.ranges.control.used == s.ranges.control.used + {c.control}
                 && (if c.agent == 0 then s'.ranges.agent.used == s.ranges.agent.used
                     else c.agent !in s.ranges.agent.used
                          && s'.ranges.agent.used == s.ranges.agent.used + {c.agent})
               else
                 && s'.ops == s.ops - {o}
                 && s'.ranges.agent.used == s.ranges.agent.used
                 && s'.ranges.control.used == s.ranges.control.used
  {
    var p := s.ops[o].phase;
    AgentPortMissingIff(s, p.owner, p.device, p.noSticky);
    PortRange.AllocateTakesNextFree(s.ranges.control);
  }

  lemma {:induction false} CreateAllocateMoves(s: Service, o: Id, k: Kind)
    requires Ready(s) && Sound(s, k) && Enabled(s, o, CreateAllocate) && s.ops[o].ports == NOTHING
    ensures var s' := DoCreateAllocate(s, o); Sound(s', k) && (Exact(s, k) ==> Exact(s', k))
  {
    var s' := DoCreateAllocate(s, o);
    CreateAllocateResult(s, o);
    NoZero(s, k);
    if o in s'.ops && s'.ops[o].ports.Get(k) != 0 {
      TakenIsSound(s, s', k, OfOp(o), s'.ops[o].ports.Get(k));
    } else {
      KeptIsSound(s, s', k);
    }
  }

  lemma {:induction false} CreateAllocateShape(s: Service, o: Id)
    requires Shape(s) && Enabled(s, o, CreateAllocate)
    ensures Shape(DoCreateAllocate(s, o))
  {
    var p := s.ops[o].phase;
    AgentPortMissingIff(s, p.owner, p.device, p.noSticky);
    PortRange.AllocateTakesNextFree(s.ranges.control);
  }

  lemma {:induction false} CreateInsertStep(s: Service, o: Id, id: Id)
    requires Shape(s) && (forall j :: Sound(s, j)) && Enabled(s, o, CreateInsert(id))
    ensures Fine(s, DoCreateInsert(s, o, id))
  {
    var s' := DoCreateInsert(s, o, id);
    if id !in s'.table {
      OpMovesOn(s, o, s.ops[o].(phase := Freeing));
    } else {
      forall k: Kind
        ensures Sound(s', k) && (Exact(s, k) ==> Exact(s', k))
      {
        NoZero(s, k);
        PassedIsSound(s, s', k, OfOp(o), OfLease(id));
      }
    }
  }

  /** A commit that would overwrite a mobile port is the one step that can lose a port. */
  predicate Overwrites(s: Service, o: Id, step: Step) {
    && step.StartCommit? && o in s.ops && s.ops[o].lease in s.leases
    && s.leases[s.ops[o].lease].ports.mobile != 0
  }

  /** Steps that only move an operation on, without a port changing hands. */
  predicate Quiet(step: Step) {
    Begins(step) || step.CreateGiveUp? || step.StartSession? || step.StartAbort? || step.StopRead? || step.StopDone?
    || step.ReleaseRead? || step.ReleaseSessionStopped? || step.StopFail? || step.ReleaseFail? || step.OpEnds?
  }

  lemma {:induction false} QuietShape(s: Service, o: Id, step: Step)
    requires Ready(s) && Enabled(s, o, step) && Quiet(step)
    requires o in s.ops ==> OpFits(s.ops[o], s.table, s.leases, s.agentsExhausted)
    ensures var s' := Apply(s, o, step);
            || (o in s.ops && s.ops[o].ports == NOTHING && s' == EndOp(s, o))
            || (o in s'.ops && s' == SetOp(s, o, s'.ops[o])
                && OpFits(s'.ops[o], s.table, s.leases, s.agentsExhausted)
                && s'.ops[o].ports == if o in s.ops then s.ops[o].ports else NOTHING)
  {
  }

  lemma {:induction false} QuietStep(s: Service, o: Id, step: Step)
    requires Shape(s) && (forall k :: Sound(s, k)) && Enabled(s, o, step) && Quiet(step)
    ensures Fine(s, Apply(s, o, step))
  {
    QuietShape(s, o, step);
    var s' := Apply(s, o, step);
    if o in s'.ops && s' == SetOp(s, o, s'.ops[o]) {
      OpMovesOn(s, o, s'.ops[o]);
    } else {
      OpLeaves(s, o);
    }
  }

  lemma {:induction false} HoldingStep(s: Service, o: Id, step: Step)
    requires Shape(s) && (forall k :: Sound(s, k)) && Enabled(s, o, step)
    ensures var s' := Apply(s, o, step);
            && Shape(s')
            && forall k :: Sound(s', k) && (Exact(s, k) && !Overwrites(s, o, step) ==> Exact(s', k))
  {
    if Quiet(step) {
      QuietStep(s, o, step);
    } else if step.StartCommit? {
      StartCommitStep(s, o);
    } else {
      AllocatingStep(s, o, step);
    }
  }

  lemma {:induction false} AllocatingStep(s: Service, o: Id, step: Step)
    requires Shape(s) && (forall k :: Sound(s, k)) && Enabled(s, o, step)
    requires !Quiet(step) && !step.StartCommit?
    ensures Fine(s, Apply(s, o, step))
  {
    match step
    case CreateAllocate => CreateAllocateStep(s, o);
    case CreateInsert(id) => CreateInsertStep(s, o, id);
    case StartAllocate(agentRunning) => StartAllocateStep(s, o, agentRunning);
    case ReclaimRemove => ReclaimRemoveStep(s, o);
    case ReclaimMobile => ReclaimMobileStep(s, o);
    case Clear(hit) => ClearStep(s, o, hit);
    case Free(kind) => FreeStep(s, o, kind);
  }

  /** Only CreateInsert adds to the table, and a lease's owner never changes. */
  predicate SameOwners(s: Service, s': Service) {
    && s'.table <= s.table
    && s'.leases.Keys == s.leases.Keys
    && forall id | id in s.leases :: s'.leases[id].owner == s.leases[id].owner
  }

  lemma {:induction false} TableQuiet(s: Service, o: Id, step: Step)
    requires Ready(s) && Enabled(s, o, step) && Quiet(step)
    ensures SameOwners(s, Apply(s, o, step))
  {
  }

  lemma {:induction false} TableBusy(s: Service, o: Id, step: Step)
    requires Ready(s) && Enabled(s, o, step) && !Quiet(step) && !step.CreateInsert?
    ensures SameOwners(s, Apply(s, o, step))
  {
  }

  lemma {:induction false} TableStep(s: Service, o: Id, step: Step)
    requires Ready(s) && Enabled(s, o, step) && !step.CreateInsert?
    ensures SameOwners(s, Apply(s, o, step))
  {
    if Quiet(step) {
      TableQuiet(s, o, step);
    } else {
      TableBusy(s, o, step);
    }
  }

  lemma OwnedAfterInsert(table: set<Id>, leases: map<Id, Lease>, id: Id, l: Lease, owner: string)
    requires id !in table && id !in leases
    ensures |Owned(table + {id}, leases[id := l], owner)|
            == |Owned(table, leases, owner)| + if l.owner == owner then 1 else 0
  {
    var before, after := Owned(table, leases, owner), Owned(table + {id}, leases[id := l], owner);
    if l.owner == owner {
      assert after == before + {id};
    } else {
      assert after == before;
    }
  }

  lemma {:induction false} LimitedAfterInsert(s: Service, o: Id, id: Id)
    requires s.table <= s.leases.Keys && Limited(s) && Enabled(s, o, CreateInsert(id))
    ensures Limited(DoCreateInsert(s, o, id))
  {
    var s' := DoCreateInsert(s, o, id);
    forall owner
      ensures |OwnedBy(s', owner)| <= MAX_LEASES_PER_OWNER
    {
      assert |OwnedBy(s, owner)| <= MAX_LEASES_PER_OWNER;
      if id in s'.table {
        OwnedAfterInsert(s.table, s.leases, id, s'.leases[id], owner);
      }
    }
  }

  lemma {:induction false} LimitedWhenSmaller(s: Service, s': Service)
    requires Limited(s) && s'.table <= s.table && s'.leases.Keys == s.leases.Keys
    requires forall id :: id in s.leases ==> s'.leases[id].owner == s.leases[id].owner
    ensures Limited(s')
  {
    forall owner
      ensures |OwnedBy(s', owner)| <= MAX_LEASES_PER_OWNER
    {
      SubsetSize(OwnedBy(s', owner), OwnedBy(s, owner));
    }
  }

  lemma {:induction false} LimitedStep(s: Service, o: Id, step: Step)
    requires Ready(s) && s.table <= s.leases.Keys && Limited(s) && Enabled(s, o, step)
    ensures Limited(Apply(s, o, step))
  {
    if step.CreateInsert? {
      LimitedAfterInsert(s, o, step.id);
    } else {
      TableStep(s, o, step);
      LimitedWhenSmaller(s, Apply(s, o, step));
    }
  }

  // ---- runs ---------------------------------------------------------------------------

  predicate Legal(s: Service, run: seq<(Id, Step)>)
    decreases |run|
  {
    run == [] || (Ready(s) && Enabled(s, run[0].0, run[0].1) && Legal(Apply(s, run[0].0, run[0].1), run[1..]))
  }

  function Run(s: Service, run: seq<(Id, Step)>): Service
    requires Legal(s, run)
    decreases |run|
  {
    if run == [] then s else Run(Apply(s, run[0].0, run[0].1), run[1..])
  }

  lemma {:induction false} RunInv(s: Service, run: seq<(Id, Step)>)
    requires Inv(s) && Legal(s, run)
    ensures Inv(Run(s, run))
    decreases |run|
  {
    if run != [] {
      HoldingStep(s, run[0].0, run[0].1);
      LimitedStep(s, run[0].0, run[0].1);
      RunInv(Apply(s, run[0].0, run[0].1), run[1..]);
    }
  }

  /**
   * Whatever the interleaving: control ports of the leases in the table are nonzero and
   * pairwise distinct, so are the mobile ports of the capturing ones, and so are agent ports
   * unless some create found the agent range full; all of them are marked used; and no
   * owner has more than five leases.
   */
  lemma LeasesNeverSharePorts(run: seq<(Id, Step)>, a: Id, b: Id)
    requires Legal(Init(), run)
    requires a in Run(Init(), run).table && b in Run(Init(), run).table && a != b
    ensures var s := Run(Init(), run);
            && a in s.leases && b in s.leases
            && var p, q := s.leases[a].ports, s.leases[b].ports;
            && p.control != 0 && p.control != q.control && p.control in s.ranges.control.used
            && (s.leases[a].session.Some? ==> p.mobile != 0 && p.mobile != q.mobile && p.mobile in s.ranges.mobile.used)
            && (!s.agentsExhausted ==> p.agent != 0)
            && (p.agent != 0 ==> p.agent != q.agent && p.agent in s.ranges.agent.used)
  {
    InitInv();
    RunInv(Init(), run);
    var s := Run(Init(), run);
    forall k: Kind
      ensures Port(s, k, OfLease(a)) != 0 ==>
                Port(s, k, OfLease(a)) != Port(s, k, OfLease(b)) && Port(s, k, OfLease(a)) in Used(s, k)
    {
      assert Sound(s, k);
    }
    assert Port(s, Agent, OfLease(a)) == s.leases[a].ports.agent;
    assert Port(s, Control, OfLease(a)) == s.leases[a].ports.control;
    assert Port(s, Mobile, OfLease(a)) == s.leases[a].ports.mobile;
  }

  lemma OwnersStayWithinLimit(run: seq<(Id, Step)>, owner: string)
    requires Legal(Init(), run)
    ensures |OwnedBy(Run(Init(), run), owner)| <= MAX_LEASES_PER_OWNER
  {
    InitInv();
    RunInv(Init(), run);
  }
}
