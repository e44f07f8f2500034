/** Two starts of one lease that overlap: a concrete run after which a mobile port is lost. */
module LeaseOverlap {
  import opened Seqs
  import PortRange
  import opened ProxyLeases
  import opened LeaseSafety
  import opened LeaseAccounting

  // ---- reaching a state step by step --------------------------------------------------

  predicate Goes(s: Service, o: Id, step: Step, t: Service) {
    Ready(s) && Enabled(s, o, step) && Apply(s, o, step) == t
  }

  ghost predicate Reachable(s: Service) {
    exists run :: Legal(Init(), run) && Run(Init(), run) == s
  }

  lemma {:induction false} OneMoreStep(s: Service, run: seq<(Id, Step)>, o: Id, step: Step, t: Service)
    requires Legal(s, run) && Goes(Run(s, run), o, step, t)
    ensures Legal(s, run + [(o, step)]) && Run(s, run + [(o, step)]) == t
    decreases |run|
  {
    if run == [] {
      assert [(o, step)][1..] == [];
    } else {
      assert (run + [(o, step)])[1..] == run[1..] + [(o, step)];
      OneMoreStep(Apply(s, run[0].0, run[0].1), run[1..], o, step, t);
    }
  }

  lemma {:induction false} Then(s: Service, o: Id, step: Step, t: Service)
    requires Reachable(s) && Goes(s, o, step, t)
    ensures Reachable(t)
  {
    var run :| Legal(Init(), run) && Run(Init(), run) == s;
    OneMoreStep(Init(), run, o, step, t);
  }

  // ---- a lease of one owner -----------------------------------------------------------

  function OneLease(mobile: int, session: Option<string>, ops: map<Id, Op>, mobiles: PortRange.Ports): Service {
    Service({0}, map[0 := Lease("owner", "", Claim(12100, 19500, mobile), session)],
            Ranges(PortRange.Ports(12100, 12199, {12100}, 1), PortRange.Ports(19500, 19599, {19500}, 1), mobiles),
            map[], ops, false)
  }

  function Mobiles(n: nat): PortRange.Ports {
    PortRange.Ports(19100, 19199, FirstPorts(n), n)
  }

  function FirstPorts(n: nat): set<int> {
    if n == 0 then {} else FirstPorts(n - 1) + {19100 + n - 1}
  }

  lemma FewPorts()
    ensures FirstPorts(0) == {} && FirstPorts(1) == {19100} && FirstPorts(2) == {19100, 19101}
    ensures Mobiles(0).Valid() && Mobiles(1).Valid() && Mobiles(2).Valid()
  {
  }

  /** Lease 0 is created, and idle. */
  function Idle(): Service {
    OneLease(0, None, map[], Mobiles(0))
  }

  function Admitting(): Service {
    SetOp(Init(), 0, Op(Admitted("owner", "", true), 0, NOTHING))
  }

  function Creating(): Service {
    OneLease(0, None, map[0 := Op(Equipped("owner", ""), 0, Claim(12100, 19500, 0))], Mobiles(0)).(table := {}, leases := map[])
  }

  lemma {:induction false} AllocateAtCursor(p: PortRange.Ports)
    requires p.Valid() && p.cursor + 1 < p.Size() && p.base + p.cursor !in p.used
    ensures PortRange.Allocate(p)
         == (Some(p.base + p.cursor), p.(used := p.used + {p.base + p.cursor}, cursor := p.cursor + 1))
  {
    assert p.Slot(0) == p.base + p.cursor;
  }

  lemma CreateIsAdmitted()
    ensures Goes(Init(), 0, CreateAdmit("owner", "", true), Admitting())
  {
    assert OwnedBy(Init(), "owner") == {};
  }

  lemma {:induction false} CreateAllocates()
    ensures Goes(Admitting(), 0, CreateAllocate, Creating())
  {
    AllocateAtCursor(Admitting().ranges.agent);
    AllocateAtCursor(Admitting().ranges.control);
    assert Mobiles(0) == Init().ranges.mobile;
  }

  lemma {:induction false} CreateInserts()
    ensures Goes(Creating(), 0, CreateInsert(0), Idle())
  {
    assert OwnedBy(Creating(), "owner") == {};
    assert EndOp(Creating(), 0).ops == map[];
  }

  lemma InitIsReachable()
    ensures Reachable(Init())
  {
    assert Legal(Init(), []) && Run(Init(), []) == Init();
  }

  lemma CreatesOne()
    ensures Reachable(Idle())
  {
    InitIsReachable();
    CreateIsAdmitted();
    Then(Init(), 0, CreateAdmit("owner", "", true), Admitting());
    CreateAllocates();
    Then(Admitting(), 0, CreateAllocate, Creating());
    CreateInserts();
    Then(Creating(), 0, CreateInsert(0), Idle());
  }

  // ---- two starts find it idle before either of them commits --------------------------

  function Found(): Op {
    Op(StartFound, 0, NOTHING)
  }

  function Holding(port: int): Op {
    Op(StartHolding, 0, Claim(0, 0, port))
  }

  function IsLive(session: string, port: int): Op {
    Op(StartLive(session), 0, Claim(0, 0, port))
  }

  function TwoStarts(first: Op, second: Op, taken: nat): Service {
    OneLease(0, None, map[1 := first, 2 := second], Mobiles(taken))
  }

  lemma {:induction false} StartAllocates(ops: map<Id, Op>, o: Id, mobiles: PortRange.Ports)
    requires mobiles.Valid() && mobiles.cursor + 1 < mobiles.Size() && mobiles.base + mobiles.cursor !in mobiles.used
    requires o in ops && ops[o] == Found()
    ensures var p := mobiles.base + mobiles.cursor;
            var rest := mobiles.(used := mobiles.used + {p}, cursor := mobiles.cursor + 1);
            DoStartAllocate(OneLease(0, None, ops, mobiles), o, true) == OneLease(0, None, ops[o := Holding(p)], rest)
  {
    AllocateAtCursor(mobiles);
  }

  /** A start takes the next port. */
  lemma {:induction false} OneAllocates(n: nat, ops: map<Id, Op>, o: Id)
    requires n < 2 && o in ops && ops[o] == Found() && Ready(OneLease(0, None, ops, Mobiles(n)))
    requires 19100 + n !in FirstPorts(n) && FirstPorts(n) + {19100 + n} == FirstPorts(n + 1)
    ensures Goes(OneLease(0, None, ops, Mobiles(n)), o, StartAllocate(true),
                 OneLease(0, None, ops[o := Holding(19100 + n)], Mobiles(n + 1)))
  {
    var s := OneLease(0, None, ops, Mobiles(n));
    assert DoStartAllocate(s, o, true) == OneLease(0, None, ops[o := Holding(19100 + n)], Mobiles(n + 1)) by {
      StartAllocates(ops, o, Mobiles(n));
    }
    assert Enabled(s, o, StartAllocate(true));
  }

  lemma FirstFinds()
    ensures Goes(Idle(), 1, StartLookup(0), OneLease(0, None, map[1 := Found()], Mobiles(0)))
  {
  }

  lemma SecondFinds()
    ensures Goes(OneLease(0, None, map[1 := Found()], Mobiles(0)), 2, StartLookup(0), TwoStarts(Found(), Found(), 0))
  {
  }

  lemma FirstAllocates()
    ensures Goes(TwoStarts(Found(), Found(), 0), 1, StartAllocate(true), TwoStarts(Holding(19100), Found(), 1))
  {
    var ops := map[1 := Found(), 2 := Found()];
    FewPorts();
    OneAllocates(0, ops, 1);
    assert ops[1 := Holding(19100)] == map[1 := Holding(19100), 2 := Found()];
  }

  lemma SecondAllocates()
    ensures Goes(TwoStarts(Holding(19100), Found(), 1), 2, StartAllocate(true), TwoStarts(Holding(19100), Holding(19101), 2))
  {
    var ops := map[1 := Holding(19100), 2 := Found()];
    FewPorts();
    OneAllocates(1, ops, 2);
    assert ops[2 := Holding(19101)] == map[1 := Holding(19100), 2 := Holding(19101)];
  }

  lemma FirstGoesLive()
    ensures Goes(TwoStarts(Holding(19100), Holding(19101), 2), 1, StartSession("first"),
                 TwoStarts(IsLive("first", 19100), Holding(19101), 2))
  {
  }

  lemma SecondGoesLive()
    ensures Goes(TwoStarts(IsLive("first", 19100), Holding(19101), 2), 2, StartSession("second"),
                 TwoStarts(IsLive("first", 19100), IsLive("second", 19101), 2))
  {
  }

  /** The first start is committed. */
  function FirstIn(): Service {
    OneLease(19100, Some("first"), map[2 := IsLive("second", 19101)], Mobiles(2))
  }

  function BothIn(): Service {
    OneLease(19101, Some("second"), map[], Mobiles(2))
  }

  lemma FirstCommits()
    ensures Goes(TwoStarts(IsLive("first", 19100), IsLive("second", 19101), 2), 1, StartCommit, FirstIn())
  {
  }

  lemma SecondCommits()
    ensures Goes(FirstIn(), 2, StartCommit, BothIn())
  {
  }

  lemma BothHoldPorts()
    ensures Reachable(TwoStarts(Holding(19100), Holding(19101), 2))
  {
    CreatesOne();
    FirstFinds();
    Then(Idle(), 1, StartLookup(0), OneLease(0, None, map[1 := Found()], Mobiles(0)));
    SecondFinds();
    Then(OneLease(0, None, map[1 := Found()], Mobiles(0)), 2, StartLookup(0), TwoStarts(Found(), Found(), 0));
    FirstAllocates();
    Then(TwoStarts(Found(), Found(), 0), 1, StartAllocate(true), TwoStarts(Holding(19100), Found(), 1));
    SecondAllocates();
    Then(TwoStarts(Holding(19100), Found(), 1), 2, StartAllocate(true), TwoStarts(Holding(19100), Holding(19101), 2));
  }

  lemma BothCommit()
    ensures Reachable(BothIn())
  {
    BothHoldPorts();
    var live := TwoStarts(IsLive("first", 19100), IsLive("second", 19101), 2);
    FirstGoesLive();
    Then(TwoStarts(Holding(19100), Holding(19101), 2), 1, StartSession("first"),
         TwoStarts(IsLive("first", 19100), Holding(19101), 2));
    SecondGoesLive();
    Then(TwoStarts(IsLive("first", 19100), Holding(19101), 2), 2, StartSession("second"), live);
    FirstCommits();
    Then(live, 1, StartCommit, FirstIn());
    SecondCommits();
    Then(FirstIn(), 2, StartCommit, BothIn());
  }

  /** Port 19100 is used, and nothing that could give it back is left. */
  ghost predicate LostPort(s: Service) {
    s.ops == map[] && 19100 in Used(s, Mobile) && forall h :: Port(s, Mobile, h) != 19100
  }

  lemma {:induction false} EndsWithout19100()
    ensures LostPort(BothIn())
  {
    FewPorts();
  }

  /**
   * Starts and releases of one lease have to take turns: when two starts overlap, all
   * operations end with the first one's port marked used and held by nobody.
   */
  lemma {:induction false} OverlapLosesPort()
    ensures exists run :: Legal(Init(), run) && LostPort(Run(Init(), run))
  {
    BothCommit();
    EndsWithout19100();
  }
}
