/**
 * cmd/gt-pipeline/conn_tracker.go: connection identities derived from packets. The
 * endpoint pair recognises a connection; a generation counter tells its instances apart.
 */
module ConnTracker {
  import opened Seqs

  const TCP_IDLE_TTL := 600
  const UDP_IDLE_TTL := 120
  const MAX_TRACKED := 8192
  const SWEEP_EVERY := 256

  datatype Proto = Tcp | Udp | OtherProto

  /** An address and port; only their order and identity matter. */
  type Endpoint = nat

  datatype Flags = Flags(syn: bool, ack: bool, fin: bool, rst: bool)

  /** `given` is the identity the source supplied, "" if none. */
  datatype Packet = Packet(proto: Proto, given: string, src: Option<Endpoint>, dst: Option<Endpoint>, flags: Flags)

  datatype Key = Key(proto: Proto, low: Endpoint, high: Endpoint)

  /** An identity: the key and the number of the instance. */
  datatype Id = Id(key: Key, number: nat)

  datatype Inst = Inst(id: Id, lastSeen: int, finFrom: set<Endpoint>)

  datatype State = State(seqNo: nat, active: map<Key, Inst>, assigns: nat)

  /** A packet the tracker gives an identity to, and when it is handled. */
  datatype Seen = Seen(key: Key, src: Endpoint, flags: Flags, now: int)

  function CanonicalTuple(proto: Proto, a: Endpoint, b: Endpoint): Key {
    if b < a then Key(proto, b, a) else Key(proto, a, b)
  }

  /** Both directions of a connection have one key, and other connections have others. */
  lemma CanonicalIff(p: Proto, a: Endpoint, b: Endpoint, q: Proto, c: Endpoint, d: Endpoint)
    ensures CanonicalTuple(p, a, b) == CanonicalTuple(q, c, d)
            <==> p == q && ((a == c && b == d) || (a == d && b == c))
  {
  }

  /** The packets that are left alone: other protocols, identity given, no addresses. */
  function Tracked(p: Packet, now: int): Option<Seen> {
    if p.proto == OtherProto || p.given != "" || p.src.None? || p.dst.None? then None
    else Some(Seen(CanonicalTuple(p.proto, p.src.value, p.dst.value), p.src.value, p.flags, now))
  }

  predicate Opens(o: Seen) {
    o.key.proto == Tcp && o.flags.syn && !o.flags.ack
  }

  predicate IsFin(o: Seen) {
    o.key.proto == Tcp && o.flags.fin && !o.flags.rst
  }

  predicate IsRst(o: Seen) {
    o.key.proto == Tcp && o.flags.rst
  }

  // ---- one packet ---------------------------------------------------------------------

  predicate Idle(k: Key, inst: Inst, now: int) {
    now - inst.lastSeen > if k.proto == Udp then UDP_IDLE_TTL else TCP_IDLE_TTL
  }

  function Fresh(active: map<Key, Inst>, now: int): map<Key, Inst> {
    map k | k in active && !Idle(k, active[k], now) :: active[k]
  }

  function Swept(active: map<Key, Inst>, now: int): map<Key, Inst> {
    if |Fresh(active, now)| > MAX_TRACKED then map[] else Fresh(active, now)
  }

  /** The instance a packet belongs to: a new one for a SYN, or when none is active. */
  function InstanceFor(s: State, o: Seen): Inst {
    if Opens(o) || o.key !in s.active then Inst(Id(o.key, s.seqNo + 1), o.now, {})
    else s.active[o.key].(lastSeen := o.now)
  }

  function WithFin(inst: Inst, o: Seen): Inst {
    if IsFin(o) then inst.(finFrom := inst.finFrom + {o.src}) else inst
  }

  predicate Retires(inst: Inst, o: Seen) {
    IsRst(o) || (IsFin(o) && |inst.finFrom| >= 2)
  }

  /** The table after the packet, before the sweep. */
  function Noted(s: State, o: Seen): map<Key, Inst> {
    var inst := WithFin(InstanceFor(s, o), o);
    if Retires(inst, o) then s.active - {o.key} else s.active[o.key := inst]
  }

  function Assigned(s: State, o: Seen): State {
    var noted := Noted(s, o);
    State(if Opens(o) || o.key !in s.active then s.seqNo + 1 else s.seqNo,
          if (s.assigns + 1) % SWEEP_EVERY == 0 then Swept(noted, o.now) else noted,
          s.assigns + 1)
  }

  // ---- runs ---------------------------------------------------------------------------

  function Init(): State {
    State(0, map[], 0)
  }

  predicate Steps(s: State, o: Seen, u: State) {
    u == Assigned(s, o)
  }

  /** The states of the tracker before, between and after the packets of a trace. */
  predicate IsRun(t: seq<Seen>, states: seq<State>) {
    && |states| == |t| + 1 && states[0] == Init()
    && forall i | 0 <= i < |t| :: Steps(states[i], t[i], states[i + 1])
  }

  /** The identity given to packet i. */
  function IdOf(t: seq<Seen>, states: seq<State>, i: nat): Id
    requires i < |t| < |states|
  {
    InstanceFor(states[i], t[i]).id
  }

  /** The keys the sweep after packet k threw out. */
  function EvictedAt(t: seq<Seen>, states: seq<State>, k: nat): set<Key>
    requires k < |t| < |states|
  {
    Noted(states[k], t[k]).Keys - states[k + 1].active.Keys
  }

  /** A whole run: the packets, what the sweeps threw out, and the identities given. */
  datatype Log = Log(seen: seq<Seen>, evicted: seq<set<Key>>, ids: seq<Id>)
  {
    predicate Valid() {
      |seen| == |evicted| == |ids|
    }
  }

  function LogOf(t: seq<Seen>, states: seq<State>): Log
    requires |t| < |states|
  {
    Log(t, seq(|t|, k requires 0 <= k < |t| => EvictedAt(t, states, k)),
        seq(|t|, k requires 0 <= k < |t| => IdOf(t, states, k)))
  }

  // ---- generations --------------------------------------------------------------------

  /** Packet k ends its generation: a reset, or a FIN after one from the other endpoint. */
  ghost predicate Closes(h: Log, k: nat)
    requires h.Valid() && k < |h.seen|
    decreases k, 1
  {
    IsRst(h.seen[k]) ||
    (IsFin(h.seen[k]) && exists m: nat :: m < k && FinFrom(h, m) && h.seen[m].src != h.seen[k].src && SameGeneration(h, m, k))
  }

  predicate FinFrom(h: Log, m: nat)
    requires m < |h.seen|
  {
    IsFin(h.seen[m])
  }

  /**
   * Packets i and j belong to one generation: same endpoints, no opening SYN after i up to
   * j, nothing that closes or evicts the connection from i up to j.
   */
  ghost predicate SameGeneration(h: Log, i: nat, j: nat)
    requires h.Valid() && i <= j < |h.seen|
    decreases j, 0
  {
    && h.seen[i].key == h.seen[j].key
    && (forall k: nat | i < k <= j && h.seen[k].key == h.seen[i].key :: !Opens(h.seen[k]))
    && (forall k: nat | i <= k < j && h.seen[k].key == h.seen[i].key :: !Closes(h, k))
    && (forall k: nat | i <= k < j :: h.seen[i].key !in h.evicted[k])
  }

  /** The generation of packet i is still open after n packets, and i is its last one. */
  ghost predicate Current(h: Log, n: nat, i: nat)
    requires h.Valid() && i < n <= |h.seen|
  {
    && (forall k: nat | i < k < n :: h.seen[k].key != h.seen[i].key)
    && !Closes(h, i)
    && (forall k: nat | i <= k < n :: h.seen[i].key !in h.evicted[k])
  }

  ghost predicate FinsMatch(h: Log, i: nat, fins: set<Endpoint>)
    requires h.Valid() && i < |h.seen|
  {
    forall e :: e in fins <==> exists m: nat :: m <= i && FinFrom(h, m) && h.seen[m].src == e && SameGeneration(h, m, i)
  }

  /** The table entry of a key, if any, is the current generation; without one there is none. */
  ghost predicate Known(h: Log, n: nat, active: map<Key, Inst>, key: Key)
    requires h.Valid() && n <= |h.seen|
  {
    if key in active then exists i: nat :: i < n && Entry(h, n, i, key, active[key])
    else forall i: nat | i < n && h.seen[i].key == key :: !Current(h, n, i)
  }

  ghost predicate Entry(h: Log, n: nat, i: nat, key: Key, inst: Inst)
    requires h.Valid() && i < n <= |h.seen|
  {
    h.seen[i].key == key && Current(h, n, i) && inst.id == h.ids[i] && FinsMatch(h, i, inst.finFrom)
  }

  ghost predicate AllKnown(h: Log, n: nat, active: map<Key, Inst>)
    requires h.Valid() && n <= |h.seen|
  {
    forall key :: Known(h, n, active, key)
  }

  predicate InRange(h: Log, n: nat, seqNo: nat)
    requires h.Valid() && n <= |h.seen|
  {
    forall i: nat | i < n :: h.ids[i].key == h.seen[i].key && 1 <= h.ids[i].number <= seqNo
  }

  ghost predicate IdsMatch(h: Log, n: nat)
    requires h.Valid() && n <= |h.seen|
  {
    forall i: nat, j: nat | i <= j < n :: h.ids[i] == h.ids[j] <==> SameGeneration(h, i, j)
  }

  ghost predicate Inv(h: Log, n: nat, s: State)
    requires h.Valid() && n <= |h.seen|
  {
    AllKnown(h, n, s.active) && InRange(h, n, s.seqNo) && IdsMatch(h, n)
  }

  /** The log records what the tracker does with packet n. */
  predicate Records(h: Log, n: nat, s: State)
    requires h.Valid() && n < |h.seen|
  {
    && h.ids[n] == InstanceFor(s, h.seen[n]).id
    && h.evicted[n] == Noted(s, h.seen[n]).Keys - Assigned(s, h.seen[n]).active.Keys
  }

  // ---- one packet keeps the invariant -------------------------------------------------

  /** The last packet of a key among the first n, from packet i on. */
  lemma {:induction false} LastOf(h: Log, n: nat, i: nat) returns (last: nat)
    requires i < n <= |h.seen|
    ensures i <= last < n && h.seen[last].key == h.seen[i].key
    ensures forall k: nat | last < k < n :: h.seen[k].key != h.seen[i].key
    decreases n
  {
    if h.seen[n - 1].key == h.seen[i].key {
      last := n - 1;
    } else {
      last := LastOf(h, n - 1, i);
    }
  }

  /** A packet that does not open goes on with the current generation. */
  lemma {:induction false} Extends(h: Log, i: nat, last: nat, n: nat)
    requires h.Valid() && i <= last < n < |h.seen| && h.seen[last].key == h.seen[n].key
    requires Current(h, n, last) && !Opens(h.seen[n])
    ensures SameGeneration(h, i, last) <==> SameGeneration(h, i, n)
  {
  }

  /** No earlier packet's generation reaches one that opens, or for which none is active. */
  lemma {:induction false} NoneReaches(h: Log, i: nat, n: nat, active: map<Key, Inst>)
    requires h.Valid() && i < n < |h.seen| && Known(h, n, active, h.seen[n].key)
    requires Opens(h.seen[n]) || h.seen[n].key !in active
    ensures !SameGeneration(h, i, n)
  {
    if !Opens(h.seen[n]) && SameGeneration(h, i, n) {
      var last := LastOf(h, n, i);
      assert Current(h, n, last);
      assert false;
    }
  }

  predicate Starts(o: Seen, active: map<Key, Inst>) {
    Opens(o) || o.key !in active
  }

  lemma {:induction false} JoinsIff(h: Log, i: nat, n: nat, s: State)
    requires h.Valid() && i < n < |h.seen| && Inv(h, n, s) && Records(h, n, s)
    ensures h.ids[i] == h.ids[n] <==> SameGeneration(h, i, n)
  {
    var key := h.seen[n].key;
    assert Known(h, n, s.active, key);
    if Starts(h.seen[n], s.active) {
      NoneReaches(h, i, n, s.active);
    } else {
      var last: nat :| last < n && Entry(h, n, last, key, s.active[key]);
      if h.seen[i].key == key {
        Extends(h, i, last, n);
      }
    }
  }

  /** Which endpoints sent a FIN in the generation of packet n, before it. */
  lemma {:induction false} FinsBefore(h: Log, n: nat, s: State, e: Endpoint)
    requires h.Valid() && n < |h.seen| && Known(h, n, s.active, h.seen[n].key)
    ensures e in InstanceFor(s, h.seen[n]).finFrom
            <==> exists m: nat :: m < n && FinFrom(h, m) && h.seen[m].src == e && SameGeneration(h, m, n)
  {
    var key := h.seen[n].key;
    if Starts(h.seen[n], s.active) {
      forall m: nat | m < n
        ensures !SameGeneration(h, m, n)
      {
        NoneReaches(h, m, n, s.active);
      }
    } else {
      var last: nat :| last < n && Entry(h, n, last, key, s.active[key]);
      forall m: nat | m < n && h.seen[m].key == key
        ensures m <= last && (SameGeneration(h, m, last) <==> SameGeneration(h, m, n))
      {
        Extends(h, m, last, n);
      }
    }
  }

  lemma {:induction false} FinsAfter(h: Log, n: nat, s: State)
    requires h.Valid() && n < |h.seen| && Known(h, n, s.active, h.seen[n].key)
    ensures FinsMatch(h, n, WithFin(InstanceFor(s, h.seen[n]), h.seen[n]).finFrom)
  {
    assert SameGeneration(h, n, n);
    var o := h.seen[n];
    var fins := WithFin(InstanceFor(s, o), o).finFrom;
    forall e
      ensures e in fins <==> exists m: nat :: m <= n && FinFrom(h, m) && h.seen[m].src == e && SameGeneration(h, m, n)
    {
      FinsBefore(h, n, s, e);
      if e in fins && e !in InstanceFor(s, o).finFrom {
        assert FinFrom(h, n) && o.src == e;
      }
    }
  }

  lemma {:induction false} RetiresIff(h: Log, n: nat, inst: Inst)
    requires h.Valid() && n < |h.seen| && FinsMatch(h, n, inst.finFrom)
    ensures Retires(inst, h.seen[n]) <==> Closes(h, n)
  {
    if IsFin(h.seen[n]) {
      var src, fins := h.seen[n].src, inst.finFrom;
      assert src in fins by {
        assert FinFrom(h, n) && SameGeneration(h, n, n);
      }
      TwoIff(fins, src);
      if e :| e in fins && e != src {
        var m: nat :| m <= n && FinFrom(h, m) && h.seen[m].src == e && SameGeneration(h, m, n);
        assert m < n;
      }
      if m: nat :| m < n && FinFrom(h, m) && h.seen[m].src != src && SameGeneration(h, m, n) {
        assert h.seen[m].src in fins;
      }
    }
  }

  lemma TwoIff(s: set<Endpoint>, x: Endpoint)
    requires x in s
    ensures |s| >= 2 <==> exists e :: e in s && e != x
  {
    var rest := s - {x};
    assert s == rest + {x};
    if rest != {} {
      var e :| e in rest;
      assert |rest| >= 1;
    }
  }

  lemma {:induction false} KnownAfterOwn(h: Log, n: nat, s: State)
    requires h.Valid() && n < |h.seen| && Known(h, n, s.active, h.seen[n].key) && Records(h, n, s)
    ensures Known(h, n + 1, Assigned(s, h.seen[n]).active, h.seen[n].key)
  {
    var key, inst := h.seen[n].key, WithFin(InstanceFor(s, h.seen[n]), h.seen[n]);
    var after := Assigned(s, h.seen[n]).active;
    FinsAfter(h, n, s);
    RetiresIff(h, n, inst);
    if key in after {
      assert after[key] == inst;
      assert Entry(h, n + 1, n, key, after[key]);
    }
  }

  lemma {:induction false} KnownAfterOther(h: Log, n: nat, before: map<Key, Inst>, after: map<Key, Inst>, key: Key)
    requires h.Valid() && n < |h.seen| && Known(h, n, before, key) && key != h.seen[n].key
    requires key in after ==> key in before && after[key] == before[key]
    requires key in h.evicted[n] <==> key in before && key !in after
    ensures Known(h, n + 1, after, key)
  {
    if key in after {
      var i: nat :| i < n && Entry(h, n, i, key, before[key]);
      assert Entry(h, n + 1, i, key, after[key]);
    } else if key !in before {
      forall i: nat | i < n + 1 && h.seen[i].key == key
        ensures !Current(h, n + 1, i)
      {
        assert !Current(h, n, i);
      }
    }
  }

  lemma {:induction false} AllKnownAfter(h: Log, n: nat, s: State)
    requires h.Valid() && n < |h.seen| && AllKnown(h, n, s.active) && Records(h, n, s)
    ensures AllKnown(h, n + 1, Assigned(s, h.seen[n]).active)
  {
    var m, after := n + 1, Assigned(s, h.seen[n]).active;
    forall key
      ensures Known(h, m, after, key)
    {
      assert Known(h, n, s.active, key);
      if key == h.seen[n].key {
        KnownAfterOwn(h, n, s);
      } else {
        KnownAfterOther(h, n, s.active, after, key);
      }
    }
  }

  lemma {:induction false} IdsAfter(h: Log, n: nat, s: State)
    requires h.Valid() && n < |h.seen| && Inv(h, n, s) && Records(h, n, s)
    ensures InRange(h, n + 1, Assigned(s, h.seen[n]).seqNo) && IdsMatch(h, n + 1)
  {
    assert Known(h, n, s.active, h.seen[n].key);
    forall i: nat, j: nat | i <= j < n + 1
      ensures h.ids[i] == h.ids[j] <==> SameGeneration(h, i, j)
    {
      if i < j == n {
        JoinsIff(h, i, n, s);
      }
    }
  }

  lemma {:induction false} Always(t: seq<Seen>, states: seq<State>, n: nat)
    requires IsRun(t, states) && n <= |t|
    ensures Inv(LogOf(t, states), n, states[n])
  {
    if n > 0 {
      Always(t, states, n - 1);
      assert Steps(states[n - 1], t[n - 1], states[n]);
      InvAfter(LogOf(t, states), n - 1, states[n - 1], states[n]);
    }
  }

  lemma {:induction false} InvAfter(h: Log, n: nat, s: State, u: State)
    requires h.Valid() && n < |h.seen| && Inv(h, n, s) && u == Assigned(s, h.seen[n])
    requires h.ids[n] == InstanceFor(s, h.seen[n]).id
    requires h.evicted[n] == Noted(s, h.seen[n]).Keys - u.active.Keys
    ensures Inv(h, n + 1, u)
  {
    AllKnownAfter(h, n, s);
    IdsAfter(h, n, s);
  }

  // ---- what identities mean -----------------------------------------------------------

  /**
   * Two packets get the same identity if and only if they have the same endpoints and no
   * boundary lies between them: an opening SYN, a reset, a second endpoint's FIN, or the
   * sweep throwing the connection out.
   */
  lemma SameIdIff(t: seq<Seen>, states: seq<State>, i: nat, j: nat)
    requires IsRun(t, states) && i <= j < |t|
    ensures IdOf(t, states, i) == IdOf(t, states, j) <==> SameGeneration(LogOf(t, states), i, j)
  {
    Always(t, states, |t|);
    var h := LogOf(t, states);
    assert h.ids[i] == IdOf(t, states, i) && h.ids[j] == IdOf(t, states, j);
  }

  /** An identity is never used again: packets of its connection in between have it too. */
  lemma IdsAreNotReused(t: seq<Seen>, states: seq<State>, i: nat, k: nat, j: nat)
    requires IsRun(t, states) && i <= k <= j < |t|
    requires IdOf(t, states, i) == IdOf(t, states, j) && t[k].key == t[i].key
    ensures IdOf(t, states, k) == IdOf(t, states, i)
  {
    SameIdIff(t, states, i, j);
    SameIdIff(t, states, i, k);
    assert SameGeneration(LogOf(t, states), i, k);
  }

  /** The table holds at most 8192 connections right after a sweep, and one more per packet. */
  lemma {:induction false} TableIsBounded(t: seq<Seen>, states: seq<State>, n: nat)
    requires IsRun(t, states) && n <= |t|
    ensures states[n].assigns == n && Bounded(states[n])
  {
    if n > 0 {
      TableIsBounded(t, states, n - 1);
      assert Steps(states[n - 1], t[n - 1], states[n]);
      AssignedIsBounded(states[n - 1], t[n - 1], states[n]);
    }
  }

  predicate Bounded(s: State) {
    |s.active| <= MAX_TRACKED + s.assigns % SWEEP_EVERY
  }

  lemma {:induction false} AssignedIsBounded(s: State, o: Seen, u: State)
    requires Bounded(s) && u == Assigned(s, o)
    ensures Bounded(u) && u.assigns == s.assigns + 1
  {
    AtMostOneMore(s, o);
  }

  lemma {:induction false} AtMostOneMore(s: State, o: Seen)
    ensures |Noted(s, o)| <= |s.active| + 1
  {
    var noted := Noted(s, o);
    SubsetSize(noted.Keys, s.active.Keys + {o.key});
    assert |s.active.Keys + {o.key}| <= |s.active.Keys| + 1;
  }

  // ---- the tracker --------------------------------------------------------------------

  class Tracker {
    var seqNo: nat
    var active: map<Key, Inst>
    var assigns: nat

    function Value(): State
      reads this
    {
      State(seqNo, active, assigns)
    }

    constructor ()
      ensures Value() == Init()
    {
      seqNo, active, assigns := 0, map[], 0;
    }

    method NewInstance(key: Key, now: int) returns (inst: Inst)
      modifies this`seqNo, this`active
      ensures seqNo == old(seqNo) + 1 && inst == Inst(Id(key, seqNo), now, {})
      ensures active == old(active)[key := inst]
    {
      seqNo := seqNo + 1;
      inst := Inst(Id(key, seqNo), now, {});
      active := active[key := inst];
    }

    /** Returns the identity written to the packet, None when it is left alone. */
    method Assign(p: Packet, now: int) returns (id: Option<Id>)
      modifies this
      ensures var o := Tracked(p, now);
              if o.None? then id == None && Value() == old(Value())
              else id == Some(InstanceFor(old(Value()), o.value).id) && Value() == Assigned(old(Value()), o.value)
    {
      if p.proto == OtherProto {
        return None;
      }
      if p.given != "" {
        return None;
      }
      if p.src.None? || p.dst.None? {
        return None;
      }
      var key := CanonicalTuple(p.proto, p.src.value, p.dst.value);
      var inst;
      if (p.proto == Tcp && p.flags.syn && !p.flags.ack) || key !in active {
        inst := NewInstance(key, now);
      } else {
        inst := active[key].(lastSeen := now);
        active := active[key := inst];
      }
      id := Some(inst.id);
      if p.proto == Tcp {
        Retire(Seen(key, p.src.value, p.flags, now), inst);
      }
      assert active == Noted(old(Value()), Tracked(p, now).value);
      assigns := assigns + 1;
      if assigns % SWEEP_EVERY == 0 {
        Sweep(now);
      }
    }

    /** A reset, or both endpoints' FINs, retire the instance. */
    method Retire(o: Seen, inst: Inst)
      requires o.key in active && active[o.key] == inst && o.key.proto == Tcp
      modifies this`active
      ensures var fin := WithFin(inst, o);
              active == if Retires(fin, o) then old(active) - {o.key} else old(active)[o.key := fin]
    {
      if o.flags.rst {
        active := active - {o.key};
      } else if o.flags.fin {
        var fin := inst.(finFrom := inst.finFrom + {o.src});
        active := if |fin.finFrom| >= 2 then active - {o.key} else active[o.key := fin];
      }
    }

    method Sweep(now: int)
      modifies this`active
      ensures active == Swept(old(active), now)
    {
      var keys := active.Keys;
      var kept := active;
      while keys != {}
        invariant keys <= active.Keys && active == old(active)
        invariant kept == map k | k in active && (k in keys || !Idle(k, active[k], now)) :: active[k]
        decreases |keys|
      {
        var key :| key in keys;
        keys := keys - {key};
        if Idle(key, active[key], now) {
          kept := kept - {key};
        }
      }
      assert kept == Fresh(old(active), now);
      active := if |kept| > MAX_TRACKED then map[] else kept;
    }
  }
}
