/**
 * cmd/gt-pipeline/conn_tracker.go: what the sweep throws out, in terms of the packets
 * themselves, and that a connection in use keeps its identity.
 */
module ConnProgress {
  import opened Seqs
  import opened ConnTracker

  /**
   * A packet is given an identity exactly when it is TCP or UDP, has both addresses and came
   * without one; two such packets are of one connection exactly when they have the same
   * protocol and the same two endpoints, in either direction.
   */
  lemma TrackedIff(p: Packet, q: Packet, now: int, later: int)
    ensures Tracked(p, now).Some? <==> (p.proto == Tcp || p.proto == Udp) && p.given == "" && p.src.Some? && p.dst.Some?
    ensures Tracked(p, now).Some? ==>
              var o := Tracked(p, now).value;
              o.src == p.src.value && o.flags == p.flags && o.now == now
    ensures Tracked(p, now).Some? && Tracked(q, later).Some? ==>
              (Tracked(p, now).value.key == Tracked(q, later).value.key
               <==> p.proto == q.proto && {p.src.value, p.dst.value} == {q.src.value, q.dst.value})
  {
    if Tracked(p, now).Some? && Tracked(q, later).Some? {
      var a, b, c, d := p.src.value, p.dst.value, q.src.value, q.dst.value;
      CanonicalIff(p.proto, a, b, q.proto, c, d);
      if {a, b} == {c, d} {
        assert a in {c, d} && b in {c, d} && c in {a, b} && d in {a, b};
      }
    }
  }

  /** Packet i is the last of its key among the first n. */
  ghost predicate IsLast(t: seq<Seen>, i: nat, n: nat) {
    i < n <= |t| && forall k: nat | i < k < n :: t[k].key != t[i].key
  }

  /** The table remembers when the last packet of a connection came. */
  ghost predicate Timed(t: seq<Seen>, n: nat, active: map<Key, Inst>)
    requires n <= |t|
  {
    forall i: nat | IsLast(t, i, n) && t[i].key in active :: active[t[i].key].lastSeen == t[i].now
  }


  lemma {:induction false} NotedIsTimed(t: seq<Seen>, n: nat, s: State)
    requires n < |t| && Timed(t, n, s.active)
    ensures Timed(t, n + 1, Noted(s, t[n]))
  {
    var noted := Noted(s, t[n]);
    forall i: nat | IsLast(t, i, n + 1) && t[i].key in noted
      ensures noted[t[i].key].lastSeen == t[i].now
    {
      if i < n {
        assert IsLast(t, i, n) && t[i].key != t[n].key;
      }
    }
  }

  lemma {:induction false} AlwaysTimed(t: seq<Seen>, states: seq<State>, n: nat)
    requires IsRun(t, states) && n <= |t|
    ensures states[n].assigns == n && Timed(t, n, states[n].active)
    ensures n < |t| ==> Timed(t, n + 1, Noted(states[n], t[n]))
  {
    if n > 0 {
      AlwaysTimed(t, states, n - 1);
      assert Steps(states[n - 1], t[n - 1], states[n]);
    }
    if n < |t| {
      NotedIsTimed(t, n, states[n]);
    }
  }

  /** The last packet i of a connection came longer ago than connections of its kind are kept. */
  predicate LongSilent(t: seq<Seen>, i: nat, now: int)
    requires i < |t|
  {
    now - t[i].now > if t[i].key.proto == Udp then 120 else 600
  }

  /**
   * A connection still in the table after packet k is thrown out if and only if k is a 256th
   * packet and either its last packet is too long ago or more than 8192 others are not.
   */
  lemma {:induction false} SweptIff(t: seq<Seen>, states: seq<State>, i: nat, k: nat)
    requires IsRun(t, states) && k < |t| && IsLast(t, i, k + 1) && t[i].key in Noted(states[k], t[k])
    ensures t[i].key in EvictedAt(t, states, k)
            <==> (k + 1) % SWEEP_EVERY == 0
                 && (LongSilent(t, i, t[k].now) || |Fresh(Noted(states[k], t[k]), t[k].now)| > MAX_TRACKED)
  {
    AlwaysTimed(t, states, k);
    assert Steps(states[k], t[k], states[k + 1]);
    assert Noted(states[k], t[k])[t[i].key].lastSeen == t[i].now;
  }

  lemma {:induction false} FewAreFresh(s: State, o: Seen)
    requires |s.active| < MAX_TRACKED
    ensures |Fresh(Noted(s, o), o.now)| <= MAX_TRACKED
  {
    AtMostOneMore(s, o);
    SubsetSize(Fresh(Noted(s, o), o.now).Keys, Noted(s, o).Keys);
  }

  /**
   * Two packets of one connection get the same identity if nothing opens, resets or closes it
   * in between, it was never silent for longer than its kind is kept, and the table never
   * held 8192 connections.
   */
  lemma {:induction false} BusyConnectionKeepsId(t: seq<Seen>, states: seq<State>, i: nat, j: nat)
    requires IsRun(t, states) && i <= j < |t| && t[i].key == t[j].key
    requires forall k: nat | i < k <= j && t[k].key == t[i].key :: !Opens(t[k])
    requires forall k: nat | i <= k < j && t[k].key == t[i].key :: !Closes(LogOf(t, states), k)
    requires forall m: nat, k: nat | i <= m <= k < j && t[m].key == t[i].key && IsLast(t, m, k + 1) :: !LongSilent(t, m, t[k].now)
    requires forall k: nat | i <= k < j :: |states[k].active| < MAX_TRACKED
    ensures IdOf(t, states, i) == IdOf(t, states, j)
  {
    var h := LogOf(t, states);
    forall k: nat | i <= k < j
      ensures t[i].key !in h.evicted[k]
    {
      var last := LastOf(h, k + 1, i);
      assert IsLast(t, last, k + 1) && t[last].key == t[i].key;
      if t[i].key in Noted(states[k], t[k]) {
        SweptIff(t, states, last, k);
        FewAreFresh(states[k], t[k]);
      }
    }
    SameIdIff(t, states, i, j);
  }

  // ---- boundaries, in terms of the packets' flags -----------------------------------------

  /**
   * A packet does not share the identity of an earlier one if it opens the connection, or if
   * from the earlier one on the connection was reset, or both of its endpoints have sent a FIN.
   */
  lemma {:induction false} BoundariesSeparate(t: seq<Seen>, states: seq<State>, i: nat, m: nat, k: nat, j: nat)
    requires IsRun(t, states) && i <= m <= k < |t| && i < j < |t| && t[i].key == t[m].key == t[k].key == t[j].key
    requires t[i].key.proto == Tcp
    requires (k == j && t[k].flags.syn && !t[k].flags.ack)
             || (k < j && t[k].flags.rst)
             || (k < j && t[m].flags.fin && t[k].flags.fin && t[m].src != t[k].src)
    ensures IdOf(t, states, i) != IdOf(t, states, j)
  {
    var h := LogOf(t, states);
    SameIdIff(t, states, i, j);
    if SameGeneration(h, i, j) {
      assert k < j ==> !Closes(h, k);
      assert k < j ==> !Closes(h, m);
      if k < j && !t[k].flags.rst {
        assert SameGeneration(h, m, k) && FinFrom(h, m);
      }
      assert false;
    }
  }

  /**
   * Two packets of one connection share their identity if no packet after the first opens it,
   * none up to the second resets it, only one endpoint has sent a FIN, it was never silent for
   * longer than its kind is kept, and the table never held 8192 connections.
   */
  lemma {:induction false} OpenConnectionKeepsId(t: seq<Seen>, states: seq<State>, i: nat, j: nat)
    requires IsRun(t, states) && i <= j < |t| && t[i].key == t[j].key
    requires forall k: nat | i < k <= j && t[k].key == t[i].key :: !(t[k].flags.syn && !t[k].flags.ack)
    requires forall k: nat | i <= k < j && t[k].key == t[i].key :: !t[k].flags.rst
    requires forall m: nat, k: nat | m <= k < j && t[m].key == t[k].key == t[i].key && t[m].flags.fin && t[k].flags.fin :: t[m].src == t[k].src
    requires forall m: nat, k: nat | i <= m <= k < j && t[m].key == t[i].key && IsLast(t, m, k + 1) :: !LongSilent(t, m, t[k].now)
    requires forall k: nat | i <= k < j :: |states[k].active| < MAX_TRACKED
    ensures IdOf(t, states, i) == IdOf(t, states, j)
  {
    BusyConnectionKeepsId(t, states, i, j);
  }
}
