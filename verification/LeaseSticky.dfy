/**
 * cmd/gt-pipeline/proxy_lease.go, port memory: a device gets back the agent port of its last
 * lease, so that the code the phone scanned stays good, unless someone holds that port or
 * the request asks for a new one. Stated over runs, on the leases that enter the table.
 */
module LeaseSticky {
  import opened Seqs
  import PortRange
  import opened ProxyLeases
  import opened LeaseSafety
  import opened LeaseAccounting
  import LeaseLosses

  // ---- the port a device had last -------------------------------------------------------

  /** The step puts a lease into the table whose port is remembered under `key`. */
  predicate Enters(step: Step, t: Service, key: string) {
    && step.CreateInsert? && step.id in t.table && step.id in t.leases
    && var l := t.leases[step.id]; l.device != "" && StickyKey(l.owner, l.device) == key
  }

  /** The agent port of the last lease with this key that entered the table; `before` if none did. */
  function LastPort(s: Service, run: seq<(Id, Step)>, key: string, before: Option<int>): Option<int>
    requires Legal(s, run)
    decreases |run|
  {
    if run == [] then
      before
    else
      var t := Apply(s, run[0].0, run[0].1);
      LastPort(t, run[1..], key, if Enters(run[0].1, t, key) then Some(t.leases[run[0].1.id].ports.agent) else before)
  }

  function StickyOf(s: Service, key: string): Option<int> {
    if key in s.sticky then Some(s.sticky[key]) else None
  }

  lemma {:induction false} StickyStep(s: Service, o: Id, step: Step, key: string)
    requires Ready(s) && s.table <= s.leases.Keys && Enabled(s, o, step)
    ensures var t := Apply(s, o, step);
            StickyOf(t, key) == if Enters(step, t, key) then Some(t.leases[step.id].ports.agent) else StickyOf(s, key)
  {
    if step.CreateInsert? {
    } else {
      OthersForgetNothing(s, o, step);
    }
  }

  lemma {:induction false} OthersForgetNothing(s: Service, o: Id, step: Step)
    requires Ready(s) && Enabled(s, o, step) && !step.CreateInsert?
    ensures Apply(s, o, step).sticky == s.sticky
  {
    if Quiet(step) {
      QuietForgetsNothing(s, o, step);
    }
  }

  lemma {:induction false} QuietForgetsNothing(s: Service, o: Id, step: Step)
    requires Ready(s) && Enabled(s, o, step) && Quiet(step)
    ensures Apply(s, o, step).sticky == s.sticky
  {
  }

  /** What the service remembers under a key is the agent port of the last lease with that key. */
  lemma {:induction false} StickyIsLastPort(s: Service, run: seq<(Id, Step)>, key: string)
    requires Inv(s) && Legal(s, run)
    ensures StickyOf(Run(s, run), key) == LastPort(s, run, key, StickyOf(s, key))
    decreases |run|
  {
    if run != [] {
      var t := Apply(s, run[0].0, run[0].1);
      HoldingStep(s, run[0].0, run[0].1);
      LimitedStep(s, run[0].0, run[0].1);
      StickyStep(s, run[0].0, run[0].1, key);
      StickyIsLastPort(t, run[1..], key);
    }
  }

  /** Owners without a bar in their names never share a key, nor do two devices of one of them. */
  lemma KeysTellDevicesApart(owner1: string, device1: string, owner2: string, device2: string)
    requires '|' !in owner1 && '|' !in owner2
    ensures StickyKey(owner1, device1) == StickyKey(owner2, device2) <==> owner1 == owner2 && device1 == device2
  {
    var a, b := StickyKey(owner1, device1), StickyKey(owner2, device2);
    if a == b {
      assert a[|owner1|] == '|' && b[|owner2|] == '|';
      assert forall i | 0 <= i < |owner1| :: a[i] == owner1[i] && a[i] != '|';
      assert forall i | 0 <= i < |owner2| :: b[i] == owner2[i] && b[i] != '|';
      assert |owner1| == |owner2|;
      assert owner1 == a[..|owner1|] && device1 == a[|owner1| + 1..];
      assert owner2 == b[..|owner2|] && device2 == b[|owner2| + 1..];
    }
  }

  // ---- the port a create gets -----------------------------------------------------------

  /** `port` is the first free port of the range in rotation from the cursor; 0 when none is free. */
  ghost predicate NextFree(p: PortRange.Ports, port: int)
    requires p.Valid()
  {
    if PortRange.Full(p) then port == 0
    else exists i: nat :: i < p.Size() && p.Slot(i) == port && port !in p.used && forall j: nat :: j < i ==> p.Slot(j) in p.used
  }

  lemma AllocatesNextFree(p: PortRange.Ports)
    requires p.Valid()
    ensures var port := PortRange.Allocate(p).0; NextFree(p, if port.Some? then port.value else 0)
  {
    PortRange.AllocateTakesNextFree(p);
    if !PortRange.Full(p) {
      var i := PortRange.SlotOf(p, PortRange.Allocate(p).0.value);
    }
  }

  /** The agent port a create gets whose device had `last` before. */
  ghost predicate Chosen(p: PortRange.Ports, noSticky: bool, last: Option<int>, port: int)
    requires p.Valid()
  {
    if !noSticky && last.Some? && p.base <= last.value <= p.max && last.value !in p.used then
      port == last.value
    else
      NextFree(p, port)
  }

  lemma {:induction false} AllocateChooses(s: Service, o: Id)
    requires Ready(s) && Enabled(s, o, CreateAllocate)
    ensures var t := DoCreateAllocate(s, o);
            var p := s.ops[o].phase;
            o in t.ops ==>
              && Chosen(s.ranges.agent, p.noSticky, StickyOf(s, StickyKey(p.owner, p.device)), t.ops[o].ports.agent)
              && t.ops[o].phase == Equipped(p.owner, p.device) && NextFree(s.ranges.control, t.ops[o].ports.control)
  {
    AllocatesNextFree(s.ranges.agent);
    AllocatesNextFree(s.ranges.control);
  }

  // ---- over runs ------------------------------------------------------------------------

  lemma {:induction false} OthersLeaveOp(s: Service, run: seq<(Id, Step)>, o: Id)
    requires Legal(s, run) && o in s.ops && forall i | 0 <= i < |run| :: run[i].0 != o
    ensures o in Run(s, run).ops && Run(s, run).ops[o] == s.ops[o]
    decreases |run|
  {
    if run != [] {
      OtherLeavesOp(s, run[0].0, run[0].1, o);
      OthersLeaveOp(Apply(s, run[0].0, run[0].1), run[1..], o);
    }
  }

  lemma {:induction false} OtherLeavesOp(s: Service, other: Id, step: Step, o: Id)
    requires Ready(s) && Enabled(s, other, step) && o in s.ops && o != other
    ensures var t := Apply(s, other, step); o in t.ops && t.ops[o] == s.ops[o]
  {
    OnlyOwnOp(s, other, step);
    assert s.ops - {other} == Apply(s, other, step).ops - {other};
    assert (s.ops - {other})[o] == s.ops[o];
  }

  /** A step changes no operation but its own. */
  lemma {:induction false} OnlyOwnOp(s: Service, o: Id, step: Step)
    requires Ready(s) && Enabled(s, o, step)
    ensures Apply(s, o, step).ops - {o} == s.ops - {o}
  {
    if Quiet(step) {
      OnlyOwnQuietOp(s, o, step);
    } else {
      OnlyOwnBusyOp(s, o, step);
    }
  }

  lemma {:induction false} OnlyOwnQuietOp(s: Service, o: Id, step: Step)
    requires Ready(s) && Enabled(s, o, step) && Quiet(step)
    ensures Apply(s, o, step).ops - {o} == s.ops - {o}
  {
  }

  lemma {:induction false} OnlyOwnBusyOp(s: Service, o: Id, step: Step)
    requires Ready(s) && Enabled(s, o, step) && !Quiet(step)
    ensures Apply(s, o, step).ops - {o} == s.ops - {o}
  {
  }

  lemma {:induction false} RunAppend(s: Service, a: seq<(Id, Step)>, b: seq<(Id, Step)>)
    requires Legal(s, a + b)
    ensures Legal(s, a) && Legal(Run(s, a), b) && Run(s, a + b) == Run(Run(s, a), b)
    decreases |a|
  {
    if a == [] {
      assert a + b == b;
    } else {
      assert (a + b)[1..] == a[1..] + b;
      RunAppend(Apply(s, a[0].0, a[0].1), a[1..], b);
    }
  }

  /** From here on: what create `o` is given, when it allocates and later inserts, with anything by others in between. */
  lemma {:induction false} InsertedPort(s: Service, o: Id, between: seq<(Id, Step)>, id: Id)
    requires Inv(s) && Enabled(s, o, CreateAllocate)
    requires (forall i | 0 <= i < |between| :: between[i].0 != o)
    requires Legal(s, [(o, CreateAllocate)] + between + [(o, CreateInsert(id))])
    ensures var t := Run(s, [(o, CreateAllocate)] + between + [(o, CreateInsert(id))]);
            var p := s.ops[o].phase;
            id in t.table ==>
              && id in t.leases && t.leases[id].owner == p.owner && t.leases[id].device == p.device
              && t.leases[id].session == None && t.leases[id].ports.mobile == 0
              && Chosen(s.ranges.agent, p.noSticky, StickyOf(s, StickyKey(p.owner, p.device)), t.leases[id].ports.agent)
              && NextFree(s.ranges.control, t.leases[id].ports.control)
  {
    var u := Apply(s, o, CreateAllocate);
    var rest := between + [(o, CreateInsert(id))];
    assert [(o, CreateAllocate)] + between + [(o, CreateInsert(id))] == [(o, CreateAllocate)] + rest;
    assert ([(o, CreateAllocate)] + rest)[1..] == rest;
    RunAppend(u, between, [(o, CreateInsert(id))]);
    var v := Run(u, between);
    assert [(o, CreateInsert(id))][1..] == [];
    AllocateChooses(s, o);
    HoldingStep(s, o, CreateAllocate);
    LimitedStep(s, o, CreateAllocate);
    if o !in u.ops {
      OpStaysEnded(u, between, o);
    } else {
      OthersLeaveOp(u, between, o);
      assert Run(u, rest) == Apply(v, o, CreateInsert(id));
      RunInv(u, between);
    }
  }

  // ---- remembered ports are agent ports -------------------------------------------------

  predicate InRange(s: Service) {
    && s.ranges.agent.base == 12100 && s.ranges.agent.max == 12199
    && forall key :: key in s.sticky ==> s.sticky[key] == 0 || 12100 <= s.sticky[key] <= 12199
  }

  lemma {:induction false} BoundsStay(s: Service, o: Id, step: Step)
    requires Ready(s) && Enabled(s, o, step)
    ensures var t := Apply(s, o, step);
            t.ranges.agent.base == s.ranges.agent.base && t.ranges.agent.max == s.ranges.agent.max
  {
  }

  lemma {:induction false} InRangeStep(s: Service, o: Id, step: Step)
    requires Inv(s) && InRange(s) && Enabled(s, o, step)
    ensures InRange(Apply(s, o, step))
  {
    BoundsStay(s, o, step);
    if step.CreateInsert? {
      assert Sound(s, Agent) && Port(s, Agent, OfOp(o)) == s.ops[o].ports.agent;
    } else {
      OthersForgetNothing(s, o, step);
    }
  }

  lemma {:induction false} InRangeRun(s: Service, run: seq<(Id, Step)>)
    requires Inv(s) && InRange(s) && Legal(s, run)
    ensures InRange(Run(s, run))
    decreases |run|
  {
    if run != [] {
      InRangeStep(s, run[0].0, run[0].1);
      HoldingStep(s, run[0].0, run[0].1);
      LimitedStep(s, run[0].0, run[0].1);
      InRangeRun(Apply(s, run[0].0, run[0].1), run[1..]);
    }
  }

  ghost predicate Held(s: Service, port: int) {
    exists h :: Live(s, h) && Port(s, Agent, h) == port
  }

  /**
   * After any run, when create `o` allocates its ports and, whatever others do in between, puts
   * its lease into the table: without noSticky the lease has the agent port of the last lease
   * with the same key, if that had one and nobody holds it; otherwise, and with noSticky, it has
   * the next free port in rotation. It is idle, and its control port is the next free one.
   */
  lemma DeviceKeepsItsPort(before: seq<(Id, Step)>, o: Id, between: seq<(Id, Step)>, id: Id)
    requires Legal(Init(), before) && Enabled(Run(Init(), before), o, CreateAllocate)
    requires (forall i | 0 <= i < |between| :: between[i].0 != o)
    requires Legal(Run(Init(), before), [(o, CreateAllocate)] + between + [(o, CreateInsert(id))])
    ensures var s := Run(Init(), before);
            var t := Run(s, [(o, CreateAllocate)] + between + [(o, CreateInsert(id))]);
            var p := s.ops[o].phase;
            var last := LastPort(Init(), before, StickyKey(p.owner, p.device), None);
            id in t.table ==>
              && id in t.leases && t.leases[id].owner == p.owner && t.leases[id].device == p.device
              && t.leases[id].session == None && NextFree(s.ranges.control, t.leases[id].ports.control)
              && if !p.noSticky && last.Some? && last.value != 0 && !Held(s, last.value) then
                   t.leases[id].ports.agent == last.value
                 else
                   NextFree(s.ranges.agent, t.leases[id].ports.agent)
  {
    var s := Run(Init(), before);
    AfterRun(before, StickyKey(s.ops[o].phase.owner, s.ops[o].phase.device));
    InsertedPort(s, o, between, id);
  }

  /** What allocateAgentPortLocked tests is whether the last port is one and nobody holds it. */
  lemma AfterRun(run: seq<(Id, Step)>, key: string)
    requires Legal(Init(), run)
    ensures var s := Run(Init(), run);
            var last := LastPort(Init(), run, key, None);
            && Inv(s) && StickyOf(s, key) == last
            && (last.Some? ==>
                  (s.ranges.agent.base <= last.value <= s.ranges.agent.max && last.value !in s.ranges.agent.used
                   <==> last.value != 0 && !Held(s, last.value)))
  {
    var s := Run(Init(), run);
    assert Inv(s) by {
      InitInv();
      RunInv(Init(), run);
    }
    assert InRange(s) by {
      InitInv();
      InRangeRun(Init(), run);
    }
    assert StickyOf(s, key) == LastPort(Init(), run, key, None) by {
      InitInv();
      StickyIsLastPort(Init(), run, key);
    }
    assert Accounted(s, Agent) by {
      InitInv();
      StartsAccounted();
      LeaseLosses.OtherPortsAreKept(Init(), run, Agent);
    }
    assert Used(s, Agent) == s.ranges.agent.used;
  }

  lemma StartsAccounted()
    ensures Accounted(Init(), Agent)
  {
    forall h
      ensures Port(Init(), Agent, h) == 0
    {
    }
  }

  lemma {:induction false} OpStaysEnded(s: Service, run: seq<(Id, Step)>, o: Id)
    requires Legal(s, run) && o !in s.ops && forall i | 0 <= i < |run| :: run[i].0 != o
    ensures o !in Run(s, run).ops
    decreases |run|
  {
    if run != [] {
      OtherLeavesEnded(s, run[0].0, run[0].1, o);
      OpStaysEnded(Apply(s, run[0].0, run[0].1), run[1..], o);
    }
  }

  lemma {:induction false} OtherLeavesEnded(s: Service, other: Id, step: Step, o: Id)
    requires Ready(s) && Enabled(s, other, step) && o !in s.ops && o != other
    ensures o !in Apply(s, other, step).ops
  {
    OnlyOwnOp(s, other, step);
    assert o !in s.ops - {other};
  }
}
