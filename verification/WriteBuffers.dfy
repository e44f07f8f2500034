/**
 * cmd/gt-pipeline/capture_task.go, the write buffers of `run`: raw packets, events and
 * state projections wait in memory until a flush stores them. A failed write keeps its
 * buffer for the next flush; past a limit the oldest entries are dropped and counted.
 */
module WriteBuffers {
  import opened Seqs
  import opened Packets

  const RAW_BUF_MAX := 32768
  const EVENT_BUF_MAX := 65536
  const STATE_CHANGE_MAX := 131072

  /** An enriched state change; `event` is the id of the event it was projected from. */
  datatype Change = Change(event: string, path: string)

  // ---- retainOnFailure ----------------------------------------------------------------

  function KeepNewest<T>(buf: seq<T>, max: nat): (kept: seq<T>)
    ensures |kept| == if |buf| <= max then |buf| else max
    ensures kept == buf[|buf| - |kept|..]
  {
    if |buf| <= max then buf else buf[|buf| - max..]
  }

  /** Moves the newest `max` entries of buf[..len] to the front and clears the rest. */
  method RetainOnFailure<T>(buf: array<T>, len: nat, max: nat, zero: T) returns (kept: nat, dropped: nat)
    requires len <= buf.Length
    modifies buf
    ensures kept + dropped == len
    ensures buf[..kept] == KeepNewest(old(buf[..len]), max)
    ensures forall i :: kept <= i < len ==> buf[i] == zero
    ensures buf[len..] == old(buf[len..])
  {
    if len <= max {
      return len, 0;
    }
    var n := len - max;
    ghost var was := buf[..];
    forall i | 0 <= i < max {
      buf[i] := buf[i + n];
    }
    assert buf[..max] == was[n..len] == KeepNewest(was[..len], max);
    for i := max to len
      invariant buf[..max] == was[n..len]
      invariant forall k :: max <= k < i ==> buf[k] == zero
      invariant buf[len..] == was[len..]
    {
      buf[i] := zero;
    }
    return max, n;
  }

  // ---- dropUnbacked -------------------------------------------------------------------

  function Ids(events: seq<Event>): set<string> {
    set e | e in events :: e.id
  }

  /** The changes whose event is among `ids`, in order. */
  function Backed(changes: seq<Change>, ids: set<string>): (kept: seq<Change>)
    ensures |kept| <= |changes|
  {
    if changes == [] then
      []
    else
      Backed(Front(changes), ids) + (if Last(changes).event in ids then [Last(changes)] else [])
  }

  lemma {:induction false} BackedMembers(changes: seq<Change>, ids: set<string>)
    ensures forall c :: c in Backed(changes, ids) <==> c in changes && c.event in ids
  {
    if changes != [] {
      BackedMembers(Front(changes), ids);
      assert changes == Front(changes) + [Last(changes)];
    }
  }

  /** Filters changes[..len] in place down to those whose event is still buffered. */
  method DropUnbacked(changes: array<Change>, len: nat, events: seq<Event>, zero: Change) returns (kept: nat)
    requires len <= changes.Length
    modifies changes
    ensures kept <= len
    ensures changes[..kept] == Backed(old(changes[..len]), Ids(events))
    ensures forall i :: kept <= i < len ==> changes[i] == zero
  {
    var keep: set<string> := {};
    for i := 0 to |events|
      invariant keep == Ids(events[..i])
    {
      assert events[..i + 1] == events[..i] + [events[i]];
      keep := keep + {events[i].id};
    }
    assert events[..|events|] == events;
    ghost var was := changes[..len];
    kept := 0;
    for i := 0 to len
      invariant kept <= i
      invariant changes[..kept] == Backed(was[..i], keep)
      invariant forall k :: i <= k < len ==> changes[k] == was[k]
    {
      assert Front(was[..i + 1]) == was[..i];
      if changes[i].event in keep {
        changes[kept] := changes[i];
        kept := kept + 1;
      }
    }
    assert was[..len] == was;
    for i := kept to len
      invariant changes[..kept] == Backed(was, keep)
      invariant forall k :: kept <= k < i ==> changes[k] == zero
    {
      changes[i] := zero;
    }
  }

  // ---- the buffers as a value ---------------------------------------------------------

  datatype Tables = Tables(raws: seq<Packet>, events: seq<Event>, changes: seq<Change>)

  datatype Overflow = Overflow(raws: nat, events: nat, changes: nat)

  /** Buffers, the session store, the overflow counters, and all that was ever produced. */
  datatype Session = Session(buf: Tables, store: Tables, lost: Overflow, made: Tables)

  const EMPTY := Tables([], [], [])

  function Start(): Session {
    Session(EMPTY, EMPTY, Overflow(0, 0, 0), EMPTY)
  }

  /** An event reaching post-processing; the projection step may fail. */
  datatype Decoded = Decoded(event: Event, paths: Option<seq<string>>)

  function ChangesOf(d: Decoded): (r: seq<Change>)
    ensures forall c :: c in r ==> c.event == d.event.id
    ensures |r| == (if d.paths.None? then 0 else |d.paths.value|)
    ensures forall i :: 0 <= i < |r| ==> r[i].path == d.paths.value[i]
  {
    if d.paths.None? then [] else seq(|d.paths.value|, i requires 0 <= i < |d.paths.value| => Change(d.event.id, d.paths.value[i]))
  }

  function Capture(s: Session, pkt: Packet): Session {
    s.(buf := s.buf.(raws := s.buf.raws + [pkt]), made := s.made.(raws := s.made.raws + [pkt]))
  }

  function Record(t: Tables, d: Decoded): Tables {
    t.(events := t.events + [d.event], changes := t.changes + ChangesOf(d))
  }

  function Process(s: Session, d: Decoded): Session {
    s.(buf := Record(s.buf, d), made := Record(s.made, d))
  }

  /** Which of the three table writes of a flush succeed. */
  datatype Outcome = Outcome(raws: bool, events: bool, changes: bool)

  function FlushRaws(s: Session, ok: bool): Session {
    if s.buf.raws == [] then
      s
    else if ok then
      s.(store := s.store.(raws := s.store.raws + s.buf.raws), buf := s.buf.(raws := []))
    else
      var kept := KeepNewest(s.buf.raws, RAW_BUF_MAX);
      s.(buf := s.buf.(raws := kept), lost := s.lost.(raws := s.lost.raws + (|s.buf.raws| - |kept|)))
  }

  function FlushEvents(s: Session, ok: bool): Session {
    if s.buf.events == [] then
      s
    else if ok then
      s.(store := s.store.(events := s.store.events + s.buf.events), buf := s.buf.(events := []))
    else
      var kept := KeepNewest(s.buf.events, EVENT_BUF_MAX);
      var changes := if |kept| != |s.buf.events| then Backed(s.buf.changes, Ids(kept)) else s.buf.changes;
      s.(buf := s.buf.(events := kept, changes := changes),
         lost := s.lost.(events := s.lost.events + (|s.buf.events| - |kept|)))
  }

  /** Projections are written only while no event is waiting. */
  function FlushChanges(s: Session, ok: bool): Session {
    if s.buf.changes == [] || s.buf.events != [] then
      s
    else if ok then
      s.(store := s.store.(changes := s.store.changes + s.buf.changes), buf := s.buf.(changes := []))
    else
      var kept := KeepNewest(s.buf.changes, STATE_CHANGE_MAX);
      s.(buf := s.buf.(changes := kept),
         lost := s.lost.(changes := s.lost.changes + (|s.buf.changes| - |kept|)))
  }

  function Flush(s: Session, o: Outcome): Session {
    FlushChanges(FlushEvents(FlushRaws(s, o.raws), o.events), o.changes)
  }

  // ---- no orphan projections ----------------------------------------------------------

  /** Every stored projection has its event stored; every buffered one has it stored or buffered. */
  ghost predicate NoOrphans(s: Session) {
    && (forall c :: c in s.store.changes ==> c.event in Ids(s.store.events))
    && (forall c :: c in s.buf.changes ==> c.event in Ids(s.store.events) + Ids(s.buf.events))
  }

  lemma IdsAppend(a: seq<Event>, b: seq<Event>)
    ensures Ids(a + b) == Ids(a) + Ids(b)
  {
    forall e | e in a + b ensures e in a || e in b {}
    assert forall e :: e in a || e in b ==> e in a + b;
    assert forall id :: id in Ids(a + b) ==> id in Ids(a) + Ids(b);
    assert forall id :: id in Ids(a) + Ids(b) ==> id in Ids(a + b);
  }

  lemma {:induction false} ProcessKeepsBacked(s: Session, d: Decoded)
    requires NoOrphans(s)
    ensures NoOrphans(Process(s, d))
  {
    IdsAppend(s.buf.events, [d.event]);
    assert d.event in [d.event];
  }

  // ---- conservation -------------------------------------------------------------------

  /** store followed by buffer is `made` with `lost` entries left out. */
  ghost predicate Conserved<T>(store: seq<T>, buf: seq<T>, lost: nat, made: seq<T>) {
    Subseq(store + buf, made) && |made| == |store| + |buf| + lost
  }

  lemma {:induction false} DropOldest<T>(p: seq<T>, buf: seq<T>, max: nat, made: seq<T>)
    requires Subseq(p + buf, made)
    ensures Subseq(p + KeepNewest(buf, max), made)
  {
    if |buf| > max {
      assert p + [buf[0]] + buf[1..] == p + buf;
      SubseqOmit(p, buf[0], buf[1..], made);
      DropOldest(p, buf[1..], max, made);
      assert KeepNewest(buf[1..], max) == KeepNewest(buf, max);
    }
  }

  lemma {:induction false} BackedInOrder(p: seq<Change>, changes: seq<Change>, ids: set<string>, rest: seq<Change>, made: seq<Change>)
    requires Subseq(p + changes + rest, made)
    ensures Subseq(p + Backed(changes, ids) + rest, made)
    decreases |changes|
  {
    if changes != [] {
      var x, init := Last(changes), Front(changes);
      if x.event in ids {
        assert p + init + ([x] + rest) == p + changes + rest;
        BackedInOrder(p, init, ids, [x] + rest, made);
        assert p + Backed(changes, ids) + rest == p + Backed(init, ids) + ([x] + rest);
      } else {
        assert (p + init) + [x] + rest == p + changes + rest;
        SubseqOmit(p + init, x, rest, made);
        BackedInOrder(p, init, ids, rest, made);
        assert Backed(changes, ids) == Backed(init, ids);
      }
    }
  }

  lemma {:induction false} AppendConserves<T>(store: seq<T>, buf: seq<T>, lost: nat, made: seq<T>, xs: seq<T>)
    requires Conserved(store, buf, lost, made)
    ensures Conserved(store, buf + xs, lost, made + xs)
    decreases |xs|
  {
    if xs == [] {
      assert buf + xs == buf && made + xs == made;
    } else {
      AppendConserves(store, buf, lost, made, Front(xs));
      SubseqExtend(store + (buf + Front(xs)), made + Front(xs), Last(xs));
      assert store + (buf + xs) == store + (buf + Front(xs)) + [Last(xs)];
      assert made + xs == made + Front(xs) + [Last(xs)];
    }
  }

  /** What holds of every reachable session. */
  ghost predicate Inv(s: Session) {
    && NoOrphans(s)
    && Conserved(s.store.raws, s.buf.raws, s.lost.raws, s.made.raws)
    && Conserved(s.store.events, s.buf.events, s.lost.events, s.made.events)
    && Subseq(s.store.changes + s.buf.changes, s.made.changes)
    && |s.made.changes| >= |s.store.changes| + |s.buf.changes| + s.lost.changes
    && (s.lost.events == 0 ==> |s.made.changes| == |s.store.changes| + |s.buf.changes| + s.lost.changes)
  }

  datatype Op = OnPacket(pkt: Packet) | OnEvent(d: Decoded) | OnFlush(o: Outcome)

  function Apply(s: Session, op: Op): Session {
    match op
    case OnPacket(pkt) => Capture(s, pkt)
    case OnEvent(d) => Process(s, d)
    case OnFlush(o) => Flush(s, o)
  }

  function Run(s: Session, ops: seq<Op>): Session
  {
    if ops == [] then s else Apply(Run(s, Front(ops)), Last(ops))
  }

  lemma {:induction false} FlushRawsInv(s: Session, ok: bool)
    requires Inv(s)
    ensures Inv(FlushRaws(s, ok))
  {
    DropOldest(s.store.raws, s.buf.raws, RAW_BUF_MAX, s.made.raws);
    assert s.store.raws + s.buf.raws + [] == s.store.raws + s.buf.raws;
  }

  lemma {:induction false} FlushEventsInv(s: Session, ok: bool)
    requires Inv(s)
    ensures Inv(FlushEvents(s, ok))
  {
    DropOldest(s.store.events, s.buf.events, EVENT_BUF_MAX, s.made.events);
    assert s.store.events + s.buf.events + [] == s.store.events + s.buf.events;
    IdsAppend(s.store.events, s.buf.events);
    BackedMembers(s.buf.changes, Ids(KeepNewest(s.buf.events, EVENT_BUF_MAX)));
    var kept := Ids(KeepNewest(s.buf.events, EVENT_BUF_MAX));
    assert s.store.changes + s.buf.changes + [] == s.store.changes + s.buf.changes;
    BackedInOrder(s.store.changes, s.buf.changes, kept, [], s.made.changes);
    assert s.store.changes + Backed(s.buf.changes, kept) + [] == s.store.changes + Backed(s.buf.changes, kept);
  }

  lemma {:induction false} FlushChangesInv(s: Session, ok: bool)
    requires Inv(s)
    ensures Inv(FlushChanges(s, ok))
  {
    DropOldest(s.store.changes, s.buf.changes, STATE_CHANGE_MAX, s.made.changes);
    assert s.store.changes + s.buf.changes + [] == s.store.changes + s.buf.changes;
  }

  lemma {:induction false} ApplyInv(s: Session, op: Op)
    requires Inv(s)
    ensures Inv(Apply(s, op))
  {
    match op
    case OnPacket(pkt) =>
      AppendConserves(s.store.raws, s.buf.raws, s.lost.raws, s.made.raws, [pkt]);
    case OnEvent(d) =>
      ProcessKeepsBacked(s, d);
      AppendConserves(s.store.events, s.buf.events, s.lost.events, s.made.events, [d.event]);
      AppendConserves(s.store.changes, s.buf.changes, |s.made.changes| - |s.store.changes| - |s.buf.changes|, s.made.changes, ChangesOf(d));
    case OnFlush(o) =>
      FlushRawsInv(s, o.raws);
      FlushEventsInv(FlushRaws(s, o.raws), o.events);
      FlushChangesInv(FlushEvents(FlushRaws(s, o.raws), o.events), o.changes);
  }

  lemma {:induction false} RunInv(ops: seq<Op>)
    ensures Inv(Run(Start(), ops))
  {
    if ops != [] {
      RunInv(Front(ops));
      ApplyInv(Run(Start(), Front(ops)), Last(ops));
    }
  }

  /** Over any run with any write failures: a stored projection refers to a stored event. */
  lemma NoOrphanProjections(ops: seq<Op>, c: Change)
    requires c in Run(Start(), ops).store.changes
    ensures exists e :: e in Run(Start(), ops).store.events && e.id == c.event
  {
    RunInv(ops);
  }

  /**
   * Over any run: for raw packets and for events, everything produced is stored, buffered or
   * counted as overflow, and store followed by buffer keeps production order. With no
   * overflow counted, store followed by buffer is exactly what was produced.
   */
  lemma NothingLostUncounted(ops: seq<Op>)
    ensures var s := Run(Start(), ops);
            && Conserved(s.store.raws, s.buf.raws, s.lost.raws, s.made.raws)
            && Conserved(s.store.events, s.buf.events, s.lost.events, s.made.events)
            && (s.lost.raws == 0 ==> s.store.raws + s.buf.raws == s.made.raws)
            && (s.lost.events == 0 ==> s.store.events + s.buf.events == s.made.events)
  {
    RunInv(ops);
    var s := Run(Start(), ops);
    SubseqLength(s.store.raws + s.buf.raws, s.made.raws);
    SubseqLength(s.store.events + s.buf.events, s.made.events);
  }

  /** Projections keep production order, and as long as no event overflowed they are conserved too. */
  lemma ProjectionsConservedWithoutEventOverflow(ops: seq<Op>)
    requires Run(Start(), ops).lost.events == 0
    ensures var s := Run(Start(), ops);
            Conserved(s.store.changes, s.buf.changes, s.lost.changes, s.made.changes)
  {
    RunInv(ops);
  }

  // ---- what a flush does --------------------------------------------------------------

  /**
   * After any run, a flush whose three writes succeed leaves nothing buffered: each table grows
   * by exactly its buffer. With no overflow counted so far the tables then hold all that was produced.
   */
  lemma WorkingFlushStoresAll(ops: seq<Op>)
    ensures var s := Run(Start(), ops);
            var t := Run(Start(), ops + [OnFlush(Outcome(true, true, true))]);
            && t.buf == EMPTY && t.lost == s.lost
            && t.store == Tables(s.store.raws + s.buf.raws, s.store.events + s.buf.events, s.store.changes + s.buf.changes)
            && (s.lost == Overflow(0, 0, 0) ==> t.store == s.made)
  {
    var all := ops + [OnFlush(Outcome(true, true, true))];
    assert Front(all) == ops;
    var s, t := Run(Start(), ops), Run(Start(), all);
    assert t == Flush(s, Outcome(true, true, true));
    assert s.store.raws + [] == s.store.raws && s.store.events + [] == s.store.events && s.store.changes + [] == s.store.changes;
    if s.lost == Overflow(0, 0, 0) {
      RunInv(ops);
      SubseqLength(s.store.raws + s.buf.raws, s.made.raws);
      SubseqLength(s.store.events + s.buf.events, s.made.events);
      SubseqLength(s.store.changes + s.buf.changes, s.made.changes);
    }
  }

  /** `left` are the newest entries of `buf`, as many as `max` allows; the others are counted. */
  predicate Retained<T(==)>(buf: seq<T>, left: seq<T>, max: nat, lost: nat) {
    && |left| + lost == |buf| && left == buf[lost..]
    && |left| <= max && (lost > 0 ==> |left| == max)
  }

  /** A failed write of raw packets stores nothing and keeps the newest ones for the next flush. */
  lemma FailedRawsRetain(s: Session, o: Outcome)
    requires !o.raws
    ensures var t := Flush(s, o);
            t.store.raws == s.store.raws && Retained(s.buf.raws, t.buf.raws, RAW_BUF_MAX, t.lost.raws - s.lost.raws)
  {
    var s1 := FlushRaws(s, o.raws);
    var s2 := FlushEvents(s1, o.events);
    assert s1.store.raws == s.store.raws && Retained(s.buf.raws, s1.buf.raws, RAW_BUF_MAX, s1.lost.raws - s.lost.raws);
    assert s2.buf.raws == s1.buf.raws && s2.store.raws == s1.store.raws && s2.lost.raws == s1.lost.raws;
  }

  lemma FailedEventsWrite(s: Session)
    ensures var t := FlushEvents(s, false);
            && t.store == s.store && t.lost.changes == s.lost.changes
            && Retained(s.buf.events, t.buf.events, EVENT_BUF_MAX, t.lost.events - s.lost.events)
            && (t.lost.events == s.lost.events ==> t.buf.changes == s.buf.changes)
            && (s.buf.events != [] ==> t.buf.events != [])
  {
  }

  /** The same for events. While one waits no projection is written, and none dropped unless events overflowed. */
  lemma FailedEventsRetain(s: Session, o: Outcome)
    requires !o.events
    ensures var t := Flush(s, o);
            && t.store.events == s.store.events
            && Retained(s.buf.events, t.buf.events, EVENT_BUF_MAX, t.lost.events - s.lost.events)
            && (s.buf.events != [] ==>
                  && t.store.changes == s.store.changes && t.lost.changes == s.lost.changes
                  && (t.lost.events == s.lost.events ==> t.buf.changes == s.buf.changes))
  {
    var s1 := FlushRaws(s, o.raws);
    var s2 := FlushEvents(s1, o.events);
    assert s1.buf.events == s.buf.events && s1.buf.changes == s.buf.changes && s1.lost.changes == s.lost.changes;
    assert s1.store.events == s.store.events && s1.store.changes == s.store.changes && s1.lost.events == s.lost.events;
    FailedEventsWrite(s1);
    var t := FlushChanges(s2, o.changes);
    assert t.buf.events == s2.buf.events && t.store.events == s2.store.events && t.lost.events == s2.lost.events;
    assert s.buf.events != [] ==> t == s2;
  }

  /** The same for projections, once no event waits. */
  lemma FailedChangesRetain(s: Session, o: Outcome)
    requires !o.changes && (o.events || s.buf.events == [])
    ensures var t := Flush(s, o);
            && t.store.changes == s.store.changes
            && Retained(s.buf.changes, t.buf.changes, STATE_CHANGE_MAX, t.lost.changes - s.lost.changes)
  {
    var s1 := FlushRaws(s, o.raws);
    var s2 := FlushEvents(s1, o.events);
    assert s1.buf.events == s.buf.events && s1.buf.changes == s.buf.changes && s1.lost.changes == s.lost.changes;
    assert s2.buf.events == [] && s2.buf.changes == s.buf.changes && s2.lost.changes == s.lost.changes;
    assert s2.store.changes == s.store.changes;
  }

  /** A flush discards projections without counting them exactly when it overflows the events and some buffered projection's event is not among those kept. */
  lemma UncountedDiscardIff(s: Session, o: Outcome)
    ensures var s' := Flush(s, o);
            var kept := Ids(KeepNewest(s.buf.events, EVENT_BUF_MAX));
            |s.store.changes| + |s.buf.changes| + s.lost.changes
              > |s'.store.changes| + |s'.buf.changes| + s'.lost.changes
            <==> !o.events && |s.buf.events| > EVENT_BUF_MAX
                 && exists c :: c in s.buf.changes && c.event !in kept
  {
    BackedShorterIff(s.buf.changes, Ids(KeepNewest(s.buf.events, EVENT_BUF_MAX)));
  }

  lemma {:induction false} BackedShorterIff(changes: seq<Change>, ids: set<string>)
    ensures |Backed(changes, ids)| < |changes| <==> exists c :: c in changes && c.event !in ids
  {
    if changes != [] {
      BackedShorterIff(Front(changes), ids);
      assert changes == Front(changes) + [Last(changes)];
    }
  }

  lemma {:induction false} NoneBacked(changes: seq<Change>, ids: set<string>)
    requires forall c :: c in changes ==> c.event !in ids
    ensures Backed(changes, ids) == []
  {
    if changes != [] {
      NoneBacked(Front(changes), ids);
    }
  }

  /** The loss does happen: a projection whose event is safely stored is discarded, uncounted. */
  lemma StoredEventLosesItsProjection()
    ensures exists ops :: var s := Run(Start(), ops);
              && s.made.changes == [Change("e", "hp")] && s.store.events == [Event("e")]
              && s.store.changes == [] && s.buf.changes == [] && s.lost.changes == 0
  {
    var first, s := StoredEventWaitingProjection();
    var ops := ManyEvents(first, EVENT_BUF_MAX + 1);
    var t := Run(Start(), ops);
    var all := ops + [OnFlush(Outcome(true, false, true))];
    assert Front(all) == ops;
    var kept := KeepNewest(t.buf.events, EVENT_BUF_MAX);
    assert forall e :: e in kept ==> e == Event("x");
    NoneBacked(t.buf.changes, Ids(kept));
    assert Run(Start(), all) == Flush(t, Outcome(true, false, true));
  }

  lemma StoredEventWaitingProjection() returns (ops: seq<Op>, s: Session)
    ensures s == Run(Start(), ops)
    ensures s == Session(Tables([], [], [Change("e", "hp")]), Tables([], [Event("e")], []), Overflow(0, 0, 0),
                         Tables([], [Event("e")], [Change("e", "hp")]))
  {
    var d := Decoded(Event("e"), Some(["hp"]));
    assert ChangesOf(d) == [Change("e", "hp")];
    ops := [OnEvent(d), OnFlush(Outcome(true, true, false))];
    s := Flush(Process(Start(), d), Outcome(true, true, false));
    assert Front(ops) == [OnEvent(d)] && Front([OnEvent(d)]) == [];
    assert Run(Start(), [OnEvent(d)]) == Process(Start(), d);
  }

  lemma {:induction false} ManyEvents(ops: seq<Op>, n: nat) returns (more: seq<Op>)
    ensures var s, t := Run(Start(), ops), Run(Start(), more);
            && t == s.(buf := s.buf.(events := t.buf.events), made := s.made.(events := t.made.events))
            && |t.buf.events| == |s.buf.events| + n
            && forall i :: |s.buf.events| <= i < |t.buf.events| ==> t.buf.events[i] == Event("x")
  {
    more := ops;
    if n > 0 {
      var most := ManyEvents(ops, n - 1);
      var op := OnEvent(Decoded(Event("x"), None));
      more := most + [op];
      assert Front(more) == most;
      assert ChangesOf(op.d) == [];
    }
  }

  // ---- the task's own buffers ---------------------------------------------------------

  class SessionBuffers {
    var raws: seq<Packet>
    var events: seq<Event>
    var enrichedSCs: seq<Change>
    var rawOverflow: nat
    var eventOverflow: nat
    var stateChangeOverflow: nat
    var sqliteStore: Tables
    ghost var made: Tables

    ghost function Value(): Session
      reads this
    {
      Session(Tables(raws, events, enrichedSCs), sqliteStore,
              Overflow(rawOverflow, eventOverflow, stateChangeOverflow), made)
    }

    constructor ()
      ensures Value() == Start()
    {
      raws, events, enrichedSCs := [], [], [];
      rawOverflow, eventOverflow, stateChangeOverflow := 0, 0, 0;
      sqliteStore, made := EMPTY, EMPTY;
    }

    method CaptureRaw(pkt: Packet)
      modifies this
      ensures Value() == Capture(old(Value()), pkt)
    {
      raws := raws + [pkt];
      made := made.(raws := made.raws + [pkt]);
    }

    method ProcessDecoded(evs: seq<Decoded>)
      modifies this
      ensures Value() == ProcessAll(old(Value()), evs)
    {
      for i := 0 to |evs|
        invariant Value() == ProcessAll(old(Value()), evs[..i])
      {
        assert Front(evs[..i + 1]) == evs[..i];
        events := events + [evs[i].event];
        enrichedSCs := enrichedSCs + ChangesOf(evs[i]);
        made := Record(made, evs[i]);
      }
      assert evs[..|evs|] == evs;
    }

    method FlushAll(o: Outcome)
      modifies this
      ensures Value() == Flush(old(Value()), o)
    {
      StoreRaws(o.raws);
      StoreEvents(o.events);
      StoreChanges(o.changes);
    }

    method StoreRaws(ok: bool)
      modifies this
      ensures Value() == FlushRaws(old(Value()), ok)
    {
      if |raws| > 0 {
        if !ok {
          var kept := KeepNewest(raws, RAW_BUF_MAX);
          rawOverflow := rawOverflow + (|raws| - |kept|);
          raws := kept;
        } else {
          sqliteStore := sqliteStore.(raws := sqliteStore.raws + raws);
          raws := [];
        }
      }
    }

    method StoreEvents(ok: bool)
      modifies this
      ensures Value() == FlushEvents(old(Value()), ok)
    {
      if |events| > 0 {
        if !ok {
          var before := |events|;
          events := KeepNewest(events, EVENT_BUF_MAX);
          eventOverflow := eventOverflow + (before - |events|);
          if |events| != before {
            enrichedSCs := Backed(enrichedSCs, Ids(events));
          }
        } else {
          sqliteStore := sqliteStore.(events := sqliteStore.events + events);
          events := [];
        }
      }
    }

    method StoreChanges(ok: bool)
      modifies this
      ensures Value() == FlushChanges(old(Value()), ok)
    {
      if |enrichedSCs| > 0 && |events| == 0 {
        if !ok {
          var kept := KeepNewest(enrichedSCs, STATE_CHANGE_MAX);
          stateChangeOverflow := stateChangeOverflow + (|enrichedSCs| - |kept|);
          enrichedSCs := kept;
        } else {
          sqliteStore := sqliteStore.(changes := sqliteStore.changes + enrichedSCs);
          enrichedSCs := [];
        }
      }
    }
  }

  function ProcessAll(s: Session, evs: seq<Decoded>): Session {
    if evs == [] then s else Process(ProcessAll(s, Front(evs)), Last(evs))
  }
}
