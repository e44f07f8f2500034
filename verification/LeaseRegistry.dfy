/**
 * cmd/gt-pipeline/proxy_lease.go: the sections of the lease operations that run under
 * leaseMu, on the lease table and the three port ranges, each one a step of ProxyLeases.
 * The operations in flight are the callers' local variables; `ops` records them.
 */
module LeaseRegistry {
  import opened Seqs
  import PortRange
  import opened ProxyLeases

  class Registry {
    var table: set<Id>
    var leases: map<Id, Lease>
    const agentPorts: PortRange.PortRange
    const ctrlPorts: PortRange.PortRange
    const grpcPorts: PortRange.PortRange
    var sticky: map<string, int>
    ghost var agentsExhausted: bool
    ghost var ops: map<Id, Op>

    ghost predicate Valid()
      reads this, agentPorts, ctrlPorts, grpcPorts
    {
      && agentPorts != ctrlPorts && ctrlPorts != grpcPorts && agentPorts != grpcPorts
      && agentPorts.Value().Valid() && ctrlPorts.Value().Valid() && grpcPorts.Value().Valid()
      && table <= leases.Keys
    }

    ghost function Ports(): Ranges
      reads agentPorts, ctrlPorts, grpcPorts
    {
      Ranges(agentPorts.Value(), ctrlPorts.Value(), grpcPorts.Value())
    }

    ghost function Value(): Service
      reads this, agentPorts, ctrlPorts, grpcPorts
    {
      Service(table, leases, Ports(), sticky, ops, agentsExhausted)
    }

    constructor ()
      ensures Valid() && Value() == Init()
      ensures fresh(agentPorts) && fresh(ctrlPorts) && fresh(grpcPorts)
    {
      table, leases, sticky, agentsExhausted, ops := {}, map[], map[], false, map[];
      agentPorts := new PortRange.PortRange(12100, 12199);
      ctrlPorts := new PortRange.PortRange(19500, 19599);
      grpcPorts := new PortRange.PortRange(19100, 19199);
    }

    /** countLeasesLocked. */
    method CountLeases(owner: string) returns (n: nat)
      requires Valid()
      ensures n == |Owned(table, leases, owner)|
    {
      n := 0;
      var rest := table;
      ghost var counted: set<Id> := {};
      while rest != {}
        invariant rest <= table && counted == (set id | id in table - rest && leases[id].owner == owner) && n == |counted|
        decreases |rest|
      {
        var id :| id in rest;
        rest := rest - {id};
        if leases[id].owner == owner {
          counted := counted + {id};
          n := n + 1;
        }
      }
      assert counted == Owned(table, leases, owner);
    }

    /** The port this device had before if it is free, else the next one, else 0. */
    method AllocateAgentPort(owner: string, device: string, noSticky: bool) returns (port: int)
      requires Valid()
      modifies agentPorts
      ensures Valid() && (port, agentPorts.Value()) == PickAgent(old(Value()), owner, device, noSticky)
    {
      if !noSticky && StickyKey(owner, device) in sticky {
        var ok := agentPorts.TakeThis(sticky[StickyKey(owner, device)]);
        if ok {
          return sticky[StickyKey(owner, device)];
        }
      }
      var next := agentPorts.TakeNext();
      port := if next.Some? then next.value else 0;
    }

    /** Agent and control port of a new lease; without a control port the agent port goes back. */
    method AllocateForCreate(ghost o: Id, owner: string, device: string, noSticky: bool) returns (ports: Option<Claim>)
      requires Valid() && o in ops && ops[o].phase == Admitted(owner, device, noSticky)
      modifies this`ops, this`agentsExhausted, agentPorts, ctrlPorts
      ensures Valid() && Value() == DoCreateAllocate(old(Value()), o)
      ensures ports == if o in ops then Some(ops[o].ports) else None
    {
      ghost var after := DoCreateAllocate(Value(), o);
      var agent := AllocateAgentPort(owner, device, noSticky);
      var control := ctrlPorts.TakeNext();
      if control.None? {
        agentPorts.GiveBack(agent);
        ports := None;
      } else {
        ports := Some(Claim(agent, control.value, 0));
      }
      ops, agentsExhausted := after.ops, after.agentsExhausted;
    }

    /** The limit is checked again; the lease enters the table and its port is remembered. */
    method Insert(ghost o: Id, id: Id, owner: string, device: string, ports: Claim) returns (ok: bool)
      requires Valid() && o in ops && ops[o].phase == Equipped(owner, device) && ops[o].ports == ports
      requires id !in leases
      modifies this`table, this`leases, this`sticky, this`ops
      ensures Valid() && Value() == DoCreateInsert(old(Value()), o, id) && ok == (id in table)
    {
      ghost var after := DoCreateInsert(Value(), o, id);
      var n := CountLeases(owner);
      if n >= MAX_LEASES_PER_OWNER {
        ok := false;
      } else {
        ok := true;
        table := table + {id};
        leases := leases[id := Lease(owner, device, ports, None)];
        if device != "" {
          sticky := sticky[StickyKey(owner, device) := ports.agent];
        }
      }
      ops := after.ops;
    }

    /** A start goes on only on an idle lease with a running agent and a free mobile port. */
    method BeginCapture(ghost o: Id, id: Id, agentRunning: bool) returns (port: Option<int>)
      requires Valid() && o in ops && ops[o].phase.StartFound? && ops[o].lease == id && id in leases
      modifies this`ops, grpcPorts
      ensures Valid() && Value() == DoStartAllocate(old(Value()), o, agentRunning)
      ensures port.Some? ==> o in ops && ops[o].ports == Claim(0, 0, port.value)
      ensures port.None? ==> o !in ops
    {
      ghost var after := DoStartAllocate(Value(), o, agentRunning);
      port := None;
      if leases[id].session.None? && agentRunning {
        port := grpcPorts.TakeNext();
      }
      ops := after.ops;
    }

    /** The lease takes over the session and its port, whatever it held before. */
    method CommitCapture(ghost o: Id, id: Id, session: string, port: int)
      requires Valid() && o in ops && ops[o].phase == StartLive(session) && ops[o].lease == id && id in leases
      requires ops[o].ports.mobile == port
      modifies this`leases, this`ops
      ensures Valid() && Value() == DoStartCommit(old(Value()), o)
    {
      ops := ops - {o};
      var l := leases[id];
      leases := leases[id := l.(session := Some(session), ports := l.ports.(mobile := port))];
    }

    /** clearLeaseCapture: the lease in the table with this session, if any, gives it up and its mobile port. */
    method ClearCapture(ghost o: Id, session: string) returns (hit: Option<Id>, port: int)
      requires Valid() && o in ops && ops[o].phase == Clearing(session)
      modifies this`leases, this`ops
      ensures Valid() && Enabled(old(Value()), o, Clear(hit)) && Value() == DoClear(old(Value()), o, hit)
      ensures port == if hit.Some? then old(leases)[hit.value].ports.mobile else 0
    {
      hit, port := None, 0;
      var rest := table;
      while rest != {} && hit.None?
        invariant rest <= table && (hit.Some? ==> Capturing(Value(), hit.value, session))
        invariant hit.None? ==> forall id | id in table - rest :: leases[id].session != Some(session)
        decreases |rest|
      {
        var id :| id in rest;
        rest := rest - {id};
        if leases[id].session == Some(session) {
          hit := Some(id);
        }
      }
      ghost var after := DoClear(Value(), o, hit);
      if hit.Some? {
        var l := leases[hit.value];
        port := l.ports.mobile;
        leases := leases[hit.value := l.(session := None, ports := l.ports.(mobile := 0))];
      }
      ops := after.ops;
    }

    /** reclaimLease: only the one that takes the lease out of the table gives its ports back. */
    method Remove(ghost o: Id, id: Id) returns (ports: Option<Claim>)
      requires Valid() && o in ops && ops[o].phase.ReleaseStopped? && ops[o].lease == id && id in leases
      modifies this`table, this`leases, this`ops
      ensures Valid() && Value() == DoReclaimRemove(old(Value()), o)
      ensures ports == if o in ops then Some(ops[o].ports) else None
    {
      ghost var after := DoReclaimRemove(Value(), o);
      if id !in table {
        ports := None;
      } else {
        var l := leases[id];
        ports := Some(l.ports.(mobile := 0));
        table := table - {id};
        leases := leases[id := l.(ports := Claim(0, 0, l.ports.mobile))];
      }
      ops := after.ops;
    }
  }
}
