/**
 * cmd/gt-pipeline/proxy_lease.go: leases of always-on proxy exits and the capture
 * sessions started on them. The service's operations run concurrently; a step here is
 * one section under leaseMu, one call on a port range, or one call into a session.
 *
 * A port is "held" by whoever will give it back: a lease, or an operation in flight.
 * When an operation takes a lease's port over to release it, the port moves with it.
 */
module ProxyLeases {
  import opened Seqs
  import PortRange

  const MAX_LEASES_PER_OWNER := 5

  type Id = nat

  datatype Kind = Agent | Control | Mobile

  /** Ports held, by kind; 0 is no port. */
  datatype Claim = Claim(agent: int, control: int, mobile: int)
  {
    function Get(k: Kind): int {
      match k
      case Agent => agent
      case Control => control
      case Mobile => mobile
    }

    function Without(k: Kind): Claim {
      match k
      case Agent => this.(agent := 0)
      case Control => this.(control := 0)
      case Mobile => this.(mobile := 0)
    }
  }

  const NOTHING := Claim(0, 0, 0)

  datatype Lease = Lease(owner: string, device: string, ports: Claim, session: Option<string>)

  /** Where an operation in flight is. */
  datatype Phase =
    | Admitted(owner: string, device: string, noSticky: bool)  // create: under the limit, no port yet
    | Equipped(owner: string, device: string)                  // create: agent and control port allocated
    | StartFound | StartHolding | StartLive(session: string)
    | StopFound | Stopping(session: string)
    | ReleaseFound | ReleaseStopping(session: string) | ReleaseStopped
    | Reclaiming                                               // lease is out of the table
    | Clearing(session: string)                                // clearLeaseCapture about to run
    | Freeing                                                  // gives back what it holds, then ends

  datatype Op = Op(phase: Phase, lease: Id, ports: Claim)

  datatype Ranges = Ranges(agent: PortRange.Ports, control: PortRange.Ports, mobile: PortRange.Ports)
  {
    function Get(k: Kind): PortRange.Ports {
      match k
      case Agent => agent
      case Control => control
      case Mobile => mobile
    }

    function With(k: Kind, p: PortRange.Ports): Ranges {
      match k
      case Agent => this.(agent := p)
      case Control => this.(control := p)
      case Mobile => this.(mobile := p)
    }
  }

  /** `table` is the lease table; lease objects outlive their removal from it. */
  datatype Service = Service(
    table: set<Id>,
    leases: map<Id, Lease>,
    ranges: Ranges,
    sticky: map<string, int>,
    ops: map<Id, Op>,
    agentsExhausted: bool)   // some create found the agent range full

  function Init(): Service {
    Service({}, map[], Ranges(PortRange.Ports(12100, 12199, {}, 0), PortRange.Ports(19500, 19599, {}, 0),
                              PortRange.Ports(19100, 19199, {}, 0)), map[], map[], false)
  }

  function Owned(table: set<Id>, leases: map<Id, Lease>, owner: string): set<Id> {
    set id | id in table && id in leases && leases[id].owner == owner
  }

  function OwnedBy(s: Service, owner: string): set<Id> {
    Owned(s.table, s.leases, owner)
  }

  // ---- steps --------------------------------------------------------------------------

  datatype Step =
    | CreateAdmit(owner: string, device: string, noSticky: bool)
    | CreateAllocate
    | CreateGiveUp
    | CreateInsert(id: Id)
    | StartLookup(id: Id)
    | StartAllocate(agentRunning: bool)
    | StartSession(session: string)
    | StartAbort
    | StartCommit
    | StopLookup(id: Id)
    | StopRead
    | StopDone
    | StopFail
    | ReleaseLookup(id: Id)
    | ReleaseRead
    | ReleaseSessionStopped
    | ReleaseFail
    | ReclaimRemove
    | ReclaimMobile
    | SessionEnds(session: string)
    | Clear(hit: Option<Id>)
    | Free(kind: Kind)
    | OpEnds

  /** Steps that begin an operation; `o` is a new operation id. */
  predicate Begins(step: Step) {
    step.CreateAdmit? || step.StartLookup? || step.StopLookup? || step.ReleaseLookup? || step.SessionEnds?
  }

  /** A lease in the table whose current session is `session`. */
  predicate Capturing(s: Service, id: Id, session: string) {
    id in s.table && id in s.leases && s.leases[id].session == Some(session)
  }

  predicate Enabled(s: Service, o: Id, step: Step) {
    if Begins(step) then
      && o !in s.ops
      && match step
         case CreateAdmit(owner, _, _) => |OwnedBy(s, owner)| < MAX_LEASES_PER_OWNER
         case StartLookup(id) => id in s.table && id in s.leases
         case StopLookup(id) => id in s.table && id in s.leases
         case ReleaseLookup(id) => id in s.table && id in s.leases
         case _ => true
    else
      && o in s.ops
      && var op := s.ops[o];
         match step
         case CreateAllocate => op.phase.Admitted?
         case CreateGiveUp => op.phase.Equipped?
         case CreateInsert(id) => op.phase.Equipped? && id !in s.leases
         case StartAllocate(_) => op.phase.StartFound? && op.lease in s.leases
         case StartSession(_) => op.phase.StartHolding?
         case StartAbort => op.phase.StartHolding? || op.phase.StartLive?
         case StartCommit => op.phase.StartLive? && op.lease in s.leases
         case StopRead => op.phase.StopFound? && op.lease in s.leases
         case StopDone => op.phase.Stopping?
         case StopFail => op.phase.Stopping?
         case ReleaseRead => op.phase.ReleaseFound? && op.lease in s.leases
         case ReleaseSessionStopped => op.phase.ReleaseStopping?
         case ReleaseFail => op.phase.ReleaseStopping?
         case ReclaimRemove => op.phase.ReleaseStopped? && op.lease in s.leases
         case ReclaimMobile =>
           op.phase.Reclaiming? && op.ports.agent == 0 && op.ports.control == 0 && op.lease in s.leases
         case Clear(hit) =>
           && op.phase.Clearing?
           && (match hit
               case Some(id) => Capturing(s, id, op.phase.session)
               case None => forall id :: id in s.table ==> !Capturing(s, id, op.phase.session))
         case Free(kind) => (op.phase.Freeing? || op.phase.Reclaiming?) && op.ports.Get(kind) != 0
         case OpEnds => op.phase.Freeing? && op.ports == NOTHING
         case _ => true
  }

  function SetOp(s: Service, o: Id, op: Op): Service {
    s.(ops := s.ops[o := op])
  }

  function EndOp(s: Service, o: Id): Service {
    s.(ops := s.ops - {o})
  }

  function SetLease(s: Service, id: Id, l: Lease): Service {
    s.(leases := s.leases[id := l])
  }

  /** The key a device's port is remembered under. */
  function StickyKey(owner: string, device: string): string {
    owner + "|" + device
  }

  /** allocateAgentPortLocked: the remembered port if it is free, else the next one, else 0. */
  function PickAgent(s: Service, owner: string, device: string, noSticky: bool): (int, PortRange.Ports)
    requires s.ranges.agent.Valid()
  {
    var known := StickyKey(owner, device) in s.sticky;
    if !noSticky && known && PortRange.Reserve(s.ranges.agent, s.sticky[StickyKey(owner, device)]).0 then
      (s.sticky[StickyKey(owner, device)], PortRange.Reserve(s.ranges.agent, s.sticky[StickyKey(owner, device)]).1)
    else
      var (port, rest) := PortRange.Allocate(s.ranges.agent);
      (if port.Some? then port.value else 0, rest)
  }

  function DoCreateAllocate(s: Service, o: Id): Service
    requires Ready(s) && o in s.ops && s.ops[o].phase.Admitted?
  {
    var p := s.ops[o].phase;
    var (agent, agents) := PickAgent(s, p.owner, p.device, p.noSticky);
    var (control, controls) := PortRange.Allocate(s.ranges.control);
    if control.None? then
      EndOp(s, o).(ranges := s.ranges.(agent := PortRange.Release(agents, agent)),
                   agentsExhausted := s.agentsExhausted || agent == 0)
    else
      SetOp(s, o, Op(Equipped(p.owner, p.device), 0, Claim(agent, control.value, 0)))
      .(ranges := s.ranges.(agent := agents, control := controls),
        agentsExhausted := s.agentsExhausted || agent == 0)
  }

  function DoCreateInsert(s: Service, o: Id, id: Id): Service
    requires o in s.ops && s.ops[o].phase.Equipped?
  {
    var op := s.ops[o];
    if |OwnedBy(s, op.phase.owner)| >= MAX_LEASES_PER_OWNER then
      SetOp(s, o, op.(phase := Freeing))
    else
      EndOp(s, o).(
        table := s.table + {id},
        leases := s.leases[id := Lease(op.phase.owner, op.phase.device, op.ports, None)],
        sticky := if op.phase.device == "" then s.sticky
                  else s.sticky[StickyKey(op.phase.owner, op.phase.device) := op.ports.agent])
  }

  function DoStartAllocate(s: Service, o: Id, agentRunning: bool): Service
    requires Ready(s) && o in s.ops && s.ops[o].lease in s.leases
  {
    var op := s.ops[o];
    var (port, mobiles) := PortRange.Allocate(s.ranges.mobile);
    if s.leases[op.lease].session.Some? || !agentRunning || port.None? then
      EndOp(s, o)
    else
      SetOp(s, o, Op(StartHolding, op.lease, Claim(0, 0, port.value)))
      .(ranges := s.ranges.(mobile := mobiles))
  }

  /** The lease's previous mobile port, if any, is overwritten: nobody holds it any more. */
  function DoStartCommit(s: Service, o: Id): Service
    requires o in s.ops && s.ops[o].phase.StartLive? && s.ops[o].lease in s.leases
  {
    var op := s.ops[o];
    var l := s.leases[op.lease];
    SetLease(EndOp(s, o), op.lease,
             l.(session := Some(op.phase.session), ports := l.ports.(mobile := op.ports.mobile)))
  }

  function DoReclaimRemove(s: Service, o: Id): Service
    requires o in s.ops && s.ops[o].lease in s.leases
  {
    var op := s.ops[o];
    var l := s.leases[op.lease];
    if op.lease !in s.table then
      EndOp(s, o)
    else
      SetLease(SetOp(s, o, Op(Reclaiming, op.lease, l.ports.(mobile := 0))), op.lease,
               l.(ports := Claim(0, 0, l.ports.mobile))).(table := s.table - {op.lease})
  }

  function DoReclaimMobile(s: Service, o: Id): Service
    requires o in s.ops && s.ops[o].lease in s.leases
  {
    var op := s.ops[o];
    var l := s.leases[op.lease];
    SetLease(SetOp(s, o, Op(Freeing, op.lease, Claim(0, 0, l.ports.mobile))), op.lease, l.(ports := NOTHING))
  }

  function DoClear(s: Service, o: Id, hit: Option<Id>): Service
    requires o in s.ops && (hit.Some? ==> hit.value in s.leases)
  {
    if hit.None? then
      EndOp(s, o)
    else
      var l := s.leases[hit.value];
      SetLease(SetOp(s, o, Op(Freeing, hit.value, Claim(0, 0, l.ports.mobile))), hit.value,
               l.(session := None, ports := l.ports.(mobile := 0)))
  }

  function DoFree(s: Service, o: Id, k: Kind): Service
    requires Ready(s) && o in s.ops
  {
    var op := s.ops[o];
    SetOp(s, o, op.(ports := op.ports.Without(k)))
    .(ranges := s.ranges.With(k, PortRange.Release(s.ranges.Get(k), op.ports.Get(k))))
  }

  predicate Ready(s: Service) {
    s.ranges.agent.Valid() && s.ranges.control.Valid() && s.ranges.mobile.Valid()
  }

  function Apply(s: Service, o: Id, step: Step): Service
    requires Ready(s) && Enabled(s, o, step)
  {
    match step
    case CreateAdmit(owner, device, noSticky) => SetOp(s, o, Op(Admitted(owner, device, noSticky), 0, NOTHING))
    case CreateAllocate => DoCreateAllocate(s, o)
    case CreateGiveUp => SetOp(s, o, s.ops[o].(phase := Freeing))
    case CreateInsert(id) => DoCreateInsert(s, o, id)
    case StartLookup(id) => SetOp(s, o, Op(StartFound, id, NOTHING))
    case StartAllocate(agentRunning) => DoStartAllocate(s, o, agentRunning)
    case StartSession(session) => SetOp(s, o, s.ops[o].(phase := StartLive(session)))
    case StartAbort => SetOp(s, o, s.ops[o].(phase := Freeing))
    case StartCommit => DoStartCommit(s, o)
    case StopLookup(id) => SetOp(s, o, Op(StopFound, id, NOTHING))
    case StopRead =>
      var session := s.leases[s.ops[o].lease].session;
      if session.None? then EndOp(s, o) else SetOp(s, o, s.ops[o].(phase := Stopping(session.value)))
    case StopDone => SetOp(s, o, s.ops[o].(phase := Clearing(s.ops[o].phase.session)))
    case StopFail => EndOp(s, o)
    case ReleaseLookup(id) => SetOp(s, o, Op(ReleaseFound, id, NOTHING))
    case ReleaseRead =>
      var session := s.leases[s.ops[o].lease].session;
      SetOp(s, o, s.ops[o].(phase := if session.None? then ReleaseStopped else ReleaseStopping(session.value)))
    case ReleaseSessionStopped => SetOp(s, o, s.ops[o].(phase := ReleaseStopped))
    case ReleaseFail => EndOp(s, o)
    case ReclaimRemove => DoReclaimRemove(s, o)
    case ReclaimMobile => DoReclaimMobile(s, o)
    case SessionEnds(session) => SetOp(s, o, Op(Clearing(session), 0, NOTHING))
    case Clear(hit) => DoClear(s, o, hit)
    case Free(kind) => DoFree(s, o, kind)
    case OpEnds => EndOp(s, o)
  }
}
