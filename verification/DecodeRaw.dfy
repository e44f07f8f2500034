/**
 * cmd/gt-pipeline/decode_raw.go: decoding the stored packets of a finished session again.
 * Rows are read page by page; events and projections are buffered and flushed, and a
 * flush that fails is tried again later.
 */
module DecodeRaw {
  import opened Seqs

  const RAW_BATCH_SIZE := 1000

  /** A projection row names the event it comes from. */
  datatype Change = Change(event: string, field: string)

  /** A decoded event; `changes` is None when its projection could not be computed. */
  datatype Event = Event(id: string, changes: Option<seq<Change>>)

  /** What decoding a stored packet gives; entries may be nil. */
  datatype Row = Failed | Decoded(events: seq<Option<Event>>)

  datatype Tables = Tables(events: seq<Event>, changes: seq<Change>)

  datatype Buffers = Buffers(pending: seq<Event>, changes: seq<Change>, sinceFlush: nat)

  datatype Counters = Counters(totalRaw: nat, decoded: nat, flushes: nat)

  datatype State = State(buffers: Buffers, tables: Tables, counters: Counters)

  /** Whether the event write and the projection write of the n-th flush succeed. */
  type Writes = nat -> (bool, bool)

  // ---- what should be in the tables ---------------------------------------------------

  function PresentEvents(events: seq<Option<Event>>): seq<Event> {
    if events == [] then []
    else PresentEvents(Front(events)) + if Last(events).Some? then [Last(events).value] else []
  }

  function EventsOf(rows: seq<Row>): seq<Event> {
    if rows == [] then []
    else EventsOf(Front(rows)) + if Last(rows).Decoded? then PresentEvents(Last(rows).events) else []
  }

  /** The projections of one event; none when they could not be computed. */
  function Projected(e: Event): seq<Change> {
    if e.changes.Some? then e.changes.value else []
  }

  function ChangesOf(events: seq<Event>): seq<Change> {
    if events == [] then [] else ChangesOf(Front(events)) + Projected(Last(events))
  }

  /** The rows to decode: all of them, or the first `limit`. */
  function Selected(rows: seq<Row>, limit: int): (r: seq<Row>)
    ensures r <= rows
    ensures |r| == |rows| || |r| == limit
    ensures limit > 0 ==> |r| <= limit
    ensures limit <= 0 ==> r == rows
  {
    if limit <= 0 || limit >= |rows| then rows else rows[..limit]
  }

  // ---- flushing -----------------------------------------------------------------------

  function FlushEvents(s: State, ok: bool): State {
    if s.buffers.pending != [] && ok then
      s.(tables := s.tables.(events := s.tables.events + s.buffers.pending), buffers := s.buffers.(pending := []))
    else s
  }

  function FlushChanges(s: State, ok: bool): State {
    if s.buffers.pending == [] && ok then
      s.(tables := s.tables.(changes := s.tables.changes + s.buffers.changes),
         buffers := s.buffers.(changes := [], sinceFlush := 0))
    else s
  }

  /** Events first; projections only once no event is pending. */
  function Flushed(s: State, w: Writes): State {
    if s.buffers.pending == [] && s.buffers.changes == [] then s
    else
      var n := s.counters.flushes;
      FlushChanges(FlushEvents(s, w(n).0), w(n).1 || FlushEvents(s, w(n).0).buffers.changes == [])
      .(counters := s.counters.(flushes := n + 1))
  }

  /** A flush returned no error when nothing is buffered afterwards. */
  predicate Empty(b: Buffers) {
    b.pending == [] && b.changes == []
  }

  function Buffered(b: Buffers, events: seq<Option<Event>>): Buffers {
    b.(pending := b.pending + PresentEvents(events), changes := b.changes + ChangesOf(PresentEvents(events)))
  }

  /** The callback for one row. */
  function OnResult(s: State, row: Row, w: Writes): State {
    var seen := s.(counters := s.counters.(totalRaw := s.counters.totalRaw + 1));
    if row.Failed? || row.events == [] then seen
    else
      var b := Buffered(s.buffers, row.events);
      var t := seen.(buffers := b.(sinceFlush := b.sinceFlush + 1),
                     counters := seen.counters.(decoded := s.counters.decoded + |row.events|));
      if t.buffers.sinceFlush >= RAW_BATCH_SIZE then Flushed(t, w) else t
  }

  function OnResults(s: State, rows: seq<Row>, w: Writes): State {
    if rows == [] then s else OnResult(OnResults(s, Front(rows), w), Last(rows), w)
  }

  // ---- what every step keeps ----------------------------------------------------------

  /** Every projection row written refers to an event that is stored. */
  ghost predicate NoOrphans(t: Tables) {
    forall c | c in t.changes :: exists e :: e in t.events && e.id == c.event
  }

  /** The projections of an event carry its id. */
  ghost predicate Own(e: Event) {
    e.changes.Some? ==> forall c | c in e.changes.value :: c.event == e.id
  }

  ghost predicate OwnRow(row: Row) {
    row.Decoded? ==> forall e | e in PresentEvents(row.events) :: Own(e)
  }

  /** Buffered projections belong to stored or pending events. */
  ghost predicate Covered(s: State) {
    forall c | c in s.buffers.changes :: exists e :: e in s.tables.events + s.buffers.pending && e.id == c.event
  }

  /** Tables and buffers together hold exactly what the rows gave, in order. */
  ghost predicate Complete(s: State, start: Tables, events: seq<Event>) {
    && s.tables.events + s.buffers.pending == start.events + events
    && s.tables.changes + s.buffers.changes == start.changes + ChangesOf(events)
  }

  ghost predicate Inv(s: State, start: Tables, events: seq<Event>) {
    NoOrphans(s.tables) && Covered(s) && Complete(s, start, events)
  }

  lemma {:induction false} FlushEventsKeeps(s: State, ok: bool, start: Tables, events: seq<Event>)
    requires Inv(s, start, events)
    ensures Inv(FlushEvents(s, ok), start, events)
  {
    assert s.tables.events + s.buffers.pending + [] == s.tables.events + s.buffers.pending;
  }

  lemma {:induction false} FlushChangesKeeps(s: State, ok: bool, start: Tables, events: seq<Event>)
    requires Inv(s, start, events)
    ensures Inv(FlushChanges(s, ok), start, events)
  {
    assert s.tables.changes + s.buffers.changes + [] == s.tables.changes + s.buffers.changes;
    if s.buffers.pending == [] {
      assert s.tables.events + [] == s.tables.events;
    }
  }

  /** At every moment of a flush, whatever fails, no projection is stored without its event. */
  lemma {:induction false} FlushKeeps(s: State, w: Writes, start: Tables, events: seq<Event>)
    requires Inv(s, start, events)
    ensures Inv(Flushed(s, w), start, events)
  {
    var n := s.counters.flushes;
    FlushEventsKeeps(s, w(n).0, start, events);
    var t := FlushEvents(s, w(n).0);
    FlushChangesKeeps(t, w(n).1 || t.buffers.changes == [], start, events);
  }

  lemma {:induction false} ChangesAppend(a: seq<Event>, b: seq<Event>)
    ensures ChangesOf(a + b) == ChangesOf(a) + ChangesOf(b)
    decreases |b|
  {
    if b == [] {
      assert a + b == a;
    } else {
      assert Front(a + b) == a + Front(b) && Last(a + b) == Last(b);
      ChangesAppend(a, Front(b));
      Associates(ChangesOf(a), ChangesOf(Front(b)), Projected(Last(b)));
    }
  }

  lemma {:induction false} OwnChanges(events: seq<Event>, c: Change)
    requires (forall e | e in events :: Own(e)) && c in ChangesOf(events)
    ensures exists e :: e in events && e.id == c.event
  {
    if Last(events).changes.Some? && c in Last(events).changes.value {
      assert Own(Last(events)) && Last(events) in events;
    } else {
      OwnChanges(Front(events), c);
    }
  }

  lemma {:induction false} BufferKeeps(s: State, row: Row, start: Tables, events: seq<Event>)
    requires Inv(s, start, events) && row.Decoded? && OwnRow(row)
    ensures Inv(s.(buffers := Buffered(s.buffers, row.events)), start, events + PresentEvents(row.events))
  {
    var more := PresentEvents(row.events);
    var t := s.(buffers := Buffered(s.buffers, row.events));
    ChangesAppend(events, more);
    forall c | c in t.buffers.changes
      ensures exists e :: e in t.tables.events + t.buffers.pending && e.id == c.event
    {
      if c in s.buffers.changes {
        var e :| e in s.tables.events + s.buffers.pending && e.id == c.event;
        assert e in t.tables.events + t.buffers.pending;
      } else {
        OwnChanges(more, c);
        var e :| e in more && e.id == c.event;
        assert e in t.tables.events + t.buffers.pending;
      }
    }
    Associates(s.tables.events, s.buffers.pending, more);
    Associates(start.events, events, more);
    Associates(s.tables.changes, s.buffers.changes, ChangesOf(more));
    Associates(start.changes, ChangesOf(events), ChangesOf(more));
  }

  lemma {:induction false} OnResultKeeps(s: State, row: Row, w: Writes, start: Tables, events: seq<Event>)
    requires Inv(s, start, events) && OwnRow(row)
    ensures Inv(OnResult(s, row, w), start, events + if row.Decoded? then PresentEvents(row.events) else [])
  {
    if row.Failed? || row.events == [] {
      assert events + [] == events;
    } else {
      BufferKeeps(s, row, start, events);
      var seen := s.(counters := s.counters.(totalRaw := s.counters.totalRaw + 1));
      var b := Buffered(s.buffers, row.events);
      var t := seen.(buffers := b.(sinceFlush := b.sinceFlush + 1),
                     counters := seen.counters.(decoded := s.counters.decoded + |row.events|));
      FlushKeeps(t, w, start, events + PresentEvents(row.events));
    }
  }

  lemma {:induction false} OnResultsKeeps(s: State, rows: seq<Row>, w: Writes)
    requires Empty(s.buffers) && NoOrphans(s.tables) && forall row | row in rows :: OwnRow(row)
    ensures var t := OnResults(s, rows, w);
            Inv(t, s.tables, EventsOf(rows)) && t.counters.totalRaw == s.counters.totalRaw + |rows|
  {
    if rows == [] {
      assert s.tables.events + [] == s.tables.events && s.tables.changes + [] == s.tables.changes;
    } else {
      OnResultsKeeps(s, Front(rows), w);
      OnResultKeeps(OnResults(s, Front(rows), w), Last(rows), w, s.tables, EventsOf(Front(rows)));
    }
  }

  /** A flush leaves nothing buffered exactly when each of its writes that has something to write succeeds. */
  lemma FlushEmptiesIff(s: State, w: Writes)
    ensures var n := s.counters.flushes;
            Empty(Flushed(s, w).buffers)
            <==> (s.buffers.pending == [] || w(n).0) && (s.buffers.changes == [] || w(n).1)
  {
  }

  /**
   * A decoding ends without an error exactly when its last flush could write what was buffered;
   * it has then added exactly the events of the selected rows, in row order and each once, and
   * exactly their projections, whatever flushes failed on the way; and one that ends with an
   * error has still added a prefix of them.
   */
  lemma {:induction false} DecodingIsExact(s: State, rows: seq<Row>, w: Writes)
    requires Empty(s.buffers) && NoOrphans(s.tables) && forall row | row in rows :: OwnRow(row)
    ensures var t := Flushed(OnResults(s, rows, w), w);
            && NoOrphans(t.tables)
            && s.tables.events <= t.tables.events <= s.tables.events + EventsOf(rows)
            && s.tables.changes <= t.tables.changes <= s.tables.changes + ChangesOf(EventsOf(rows))
            && (Empty(t.buffers) ==>
                  t.tables == Tables(s.tables.events + EventsOf(rows), s.tables.changes + ChangesOf(EventsOf(rows))))
            && var u := OnResults(s, rows, w);
               var (events, changes) := w(u.counters.flushes);
               Empty(t.buffers) <==> (u.buffers.pending == [] || events) && (u.buffers.changes == [] || changes)
  {
    OnResultsKeeps(s, rows, w);
    var u := OnResults(s, rows, w);
    FlushEmptiesIff(u, w);
    FlushKeeps(u, w, s.tables, EventsOf(rows));
    Grows(s, rows, w);
    var t := Flushed(u, w);
    assert t.tables.events <= t.tables.events + t.buffers.pending;
    assert t.tables.changes <= t.tables.changes + t.buffers.changes;
    assert t.tables.events + [] == t.tables.events && t.tables.changes + [] == t.tables.changes;
  }

  lemma {:induction false} Grows(s: State, rows: seq<Row>, w: Writes)
    ensures var t := OnResults(s, rows, w);
            s.tables.events <= t.tables.events && s.tables.changes <= t.tables.changes
  {
    if rows != [] {
      Grows(s, Front(rows), w);
    }
  }

  // ---- while the writes succeed -------------------------------------------------------

  /** How many of the rows gave events. */
  function Yielding(rows: seq<Row>): nat {
    if rows == [] then 0
    else Yielding(Front(rows)) + if Last(rows).Decoded? && Last(rows).events != [] then 1 else 0
  }

  /** The events of the first `k` rows are stored; those of the others, fewer than a batch of rows, are buffered. */
  ghost predicate StoredUpTo(t: State, start: Tables, rows: seq<Row>, k: nat) {
    && k <= |rows|
    && t.tables == Tables(start.events + EventsOf(rows[..k]), start.changes + ChangesOf(EventsOf(rows[..k])))
    && Yielding(rows[k..]) < RAW_BATCH_SIZE && Yielding(rows[k..]) <= t.buffers.sinceFlush
  }

  lemma {:induction false} RowWaits(t: State, start: Tables, rows: seq<Row>, row: Row, k: nat, u: State)
    requires StoredUpTo(t, start, rows, k) && u.tables == t.tables
    requires if row.Decoded? && row.events != [] then t.buffers.sinceFlush + 1 == u.buffers.sinceFlush < RAW_BATCH_SIZE
             else u.buffers == t.buffers
    ensures StoredUpTo(u, start, rows + [row], k)
  {
    var all := rows + [row];
    assert all[..k] == rows[..k] && all[k..] == rows[k..] + [row] && Front(rows[k..] + [row]) == rows[k..];
  }

  lemma {:induction false} RowFlushes(t: State, start: Tables, rows: seq<Row>, row: Row, w: Writes)
    requires Inv(t, start, EventsOf(rows)) && OwnRow(row) && forall n :: w(n) == (true, true)
    requires row.Decoded? && row.events != [] && t.buffers.sinceFlush + 1 >= RAW_BATCH_SIZE
    ensures StoredUpTo(OnResult(t, row, w), start, rows + [row], |rows| + 1)
  {
    var all, u := rows + [row], OnResult(t, row, w);
    assert Front(all) == rows && all[..|all|] == all && all[|all|..] == [];
    OnResultKeeps(t, row, w, start, EventsOf(rows));
    assert u.buffers.pending == [] && u.buffers.changes == [];
    assert u.tables.events + [] == u.tables.events && u.tables.changes + [] == u.tables.changes;
  }

  lemma {:induction false} RowIsStored(t: State, start: Tables, rows: seq<Row>, row: Row, k: nat, w: Writes) returns (k': nat)
    requires StoredUpTo(t, start, rows, k) && Inv(t, start, EventsOf(rows)) && OwnRow(row)
    requires forall n :: w(n) == (true, true)
    ensures StoredUpTo(OnResult(t, row, w), start, rows + [row], k')
  {
    if row.Decoded? && row.events != [] && t.buffers.sinceFlush + 1 >= RAW_BATCH_SIZE {
      k' := |rows| + 1;
      RowFlushes(t, start, rows, row, w);
    } else {
      k' := k;
      RowWaits(t, start, rows, row, k, OnResult(t, row, w));
    }
  }

  /**
   * While every write succeeds, the events of all rows but the last few are stored: those still
   * buffered come from fewer than RAW_BATCH_SIZE rows that gave any.
   */
  lemma {:induction false} BuffersStaySmall(s: State, rows: seq<Row>, w: Writes) returns (k: nat)
    requires Empty(s.buffers) && NoOrphans(s.tables) && forall row | row in rows :: OwnRow(row)
    requires forall n :: w(n) == (true, true)
    ensures StoredUpTo(OnResults(s, rows, w), s.tables, rows, k)
  {
    if rows == [] {
      k := 0;
      assert s.tables.events + [] == s.tables.events && s.tables.changes + [] == s.tables.changes;
    } else {
      var k0 := BuffersStaySmall(s, Front(rows), w);
      OnResultsKeeps(s, Front(rows), w);
      k := RowIsStored(OnResults(s, Front(rows), w), s.tables, Front(rows), Last(rows), k0, w);
      assert Front(rows) + [Last(rows)] == rows;
    }
  }

  /** What a decoding reports: the rows read, and the entries they gave, nil ones included. */
  lemma {:induction false} CountersAreExact(s: State, rows: seq<Row>, w: Writes)
    ensures var t := OnResults(s, rows, w);
            && t.counters.totalRaw == s.counters.totalRaw + |rows|
            && t.counters.decoded == s.counters.decoded + Entries(rows)
  {
    if rows != [] {
      CountersAreExact(s, Front(rows), w);
    }
  }

  function Entries(rows: seq<Row>): nat {
    if rows == [] then 0 else Entries(Front(rows)) + if Last(rows).Decoded? then |Last(rows).events| else 0
  }

  // ---- the loop -----------------------------------------------------------------------

  /** `queries` says whether the n-th page can be read. */
  class Decoder {
    var state: State

    constructor (tables: Tables)
      ensures state == State(Buffers([], [], 0), tables, Counters(0, 0, 0))
    {
      state := State(Buffers([], [], 0), tables, Counters(0, 0, 0));
    }

    method Handle(row: Row, w: Writes)
      modifies this
      ensures state == OnResult(old(state), row, w)
    {
      state := state.(counters := state.counters.(totalRaw := state.counters.totalRaw + 1));
      if row.Failed? {
        return;
      }
      if |row.events| == 0 {
        return;
      }
      Buffer(row.events);
      state := state.(counters := state.counters.(decoded := state.counters.decoded + |row.events|),
                      buffers := state.buffers.(sinceFlush := state.buffers.sinceFlush + 1));
      if state.buffers.sinceFlush >= RAW_BATCH_SIZE {
        var ok := Flush(w);
      }
    }

    method Buffer(events: seq<Option<Event>>)
      modifies this
      ensures state == old(state).(buffers := Buffered(old(state).buffers, events))
    {
      var pending, changes := state.buffers.pending, state.buffers.changes;
      ghost var more: seq<Event> := [];
      for i := 0 to |events|
        invariant state == old(state) && more == PresentEvents(events[..i])
        invariant pending == state.buffers.pending + more && changes == state.buffers.changes + ChangesOf(more)
      {
        assert events[..i + 1] == events[..i] + [events[i]];
        PresentMore(events[..i], events[i]);
        if events[i].Some? {
          var ev := events[i].value;
          Associates(state.buffers.pending, more, [ev]);
          Associates(state.buffers.changes, ChangesOf(more), Projected(ev));
          more := more + [ev];
          pending := pending + [ev];
          changes := changes + if ev.changes.Some? then ev.changes.value else [];
        }
      }
      assert events[..|events|] == events;
      state := state.(buffers := state.buffers.(pending := pending, changes := changes));
    }

    /** Returns false when a write failed; what it could not write stays buffered. */
    method Flush(w: Writes) returns (ok: bool)
      modifies this
      ensures state == Flushed(old(state), w) && (ok <==> Empty(state.buffers))
    {
      if |state.buffers.pending| == 0 && |state.buffers.changes| == 0 {
        return true;
      }
      var writes := w(state.counters.flushes);
      state := state.(counters := state.counters.(flushes := state.counters.flushes + 1));
      if |state.buffers.pending| > 0 {
        if !writes.0 {
          return false;
        }
        state := state.(tables := state.tables.(events := state.tables.events + state.buffers.pending),
                        buffers := state.buffers.(pending := []));
      }
      if |state.buffers.changes| > 0 {
        if !writes.1 {
          return false;
        }
        state := state.(tables := state.tables.(changes := state.tables.changes + state.buffers.changes),
                        buffers := state.buffers.(changes := []));
      }
      assert state.tables.changes + [] == state.tables.changes;
      state := state.(buffers := state.buffers.(sinceFlush := 0));
      return true;
    }

    /** forEachRawDecoded: visits the selected rows, each once and in order, page by page. */
    method ForEachRow(rows: seq<Row>, limit: int, queries: nat -> bool, w: Writes) returns (ok: bool, visited: nat)
      modifies this
      ensures visited <= |Selected(rows, limit)| && (ok ==> visited == |Selected(rows, limit)|)
      ensures ok || exists page :: !queries(page)
      ensures state == OnResults(old(state), Selected(rows, limit)[..visited], w)
    {
      var page := 0;
      ok, visited := true, 0;
      assert Selected(rows, limit)[..0] == [];
      while true
        invariant visited <= |Selected(rows, limit)| && ok
        invariant state == OnResults(old(state), Selected(rows, limit)[..visited], w)
        decreases |Selected(rows, limit)| - visited
      {
        var batchLimit := RAW_BATCH_SIZE;
        if limit > 0 {
          var remaining := limit - visited;
          if remaining <= 0 {
            return;
          }
          if remaining < batchLimit {
            batchLimit := remaining;
          }
        }
        if !queries(page) {
          ok := false;
          return;
        }
        ghost var before := Selected(rows, limit)[..visited];
        PageIsNext(rows, limit, visited, batchLimit);
        var batch := rows[visited..if visited + batchLimit < |rows| then visited + batchLimit else |rows|];
        if |batch| == 0 {
          return;
        }
        HandleAll(batch, w);
        OnResultsAppend(old(state), before, batch, w);
        visited := visited + |batch|;
        assert Selected(rows, limit)[..visited] == before + batch;
        page := page + 1;
        if |batch| < batchLimit {
          return;
        }
      }
    }

    method HandleAll(batch: seq<Row>, w: Writes)
      modifies this
      ensures state == OnResults(old(state), batch, w)
    {
      assert batch[..0] == [];
      for i := 0 to |batch|
        invariant state == OnResults(old(state), batch[..i], w)
      {
        assert Front(batch[..i + 1]) == batch[..i];
        Handle(batch[i], w);
      }
      assert batch[..|batch|] == batch;
    }

    /** The whole operation on a session's tables. */
    method DecodeRawPackets(rows: seq<Row>, limit: int, queries: nat -> bool, w: Writes) returns (ok: bool)
      requires Empty(state.buffers) && NoOrphans(state.tables) && forall row | row in rows :: OwnRow(row)
      modifies this
      ensures NoOrphans(state.tables)
      ensures var events := EventsOf(Selected(rows, limit));
              && old(state).tables.events <= state.tables.events
              && (ok ==> state.tables == Tables(old(state).tables.events + events,
                                                old(state).tables.changes + ChangesOf(events)))
      ensures ok || !Empty(state.buffers) || exists page :: !queries(page)
    {
      var visited;
      ok, visited := ForEachRow(rows, limit, queries, w);
      var selected := Selected(rows, limit);
      DecodingIsExact(old(state), selected[..visited], w);
      assert ok ==> selected[..visited] == selected;
      var flushed := Flush(w);
      ok := ok && flushed;
    }
  }

  lemma {:induction false} PresentMore(events: seq<Option<Event>>, e: Option<Event>)
    ensures var more := PresentEvents(events + [e]);
            && more == (if e.Some? then PresentEvents(events) + [e.value] else PresentEvents(events))
            && ChangesOf(more) == ChangesOf(PresentEvents(events)) + if e.Some? then Projected(e.value) else []
  {
    assert Front(events + [e]) == events;
    if e.Some? {
      assert Front(PresentEvents(events) + [e.value]) == PresentEvents(events);
    } else {
      assert ChangesOf(PresentEvents(events)) + [] == ChangesOf(PresentEvents(events));
    }
  }

  /** A page is the next stretch of the selected rows, and a short page is the last one. */
  lemma {:induction false} PageIsNext(rows: seq<Row>, limit: int, visited: nat, batchLimit: nat)
    requires visited <= |Selected(rows, limit)| && batchLimit > 0 && (limit > 0 ==> batchLimit <= limit - visited)
    ensures var end := if visited + batchLimit < |rows| then visited + batchLimit else |rows|;
            && visited <= end <= |Selected(rows, limit)|
            && Selected(rows, limit)[..visited] + rows[visited..end] == Selected(rows, limit)[..end]
            && (end - visited < batchLimit ==> end == |Selected(rows, limit)|)
  {
  }

  lemma {:induction false} OnResultsAppend(s: State, a: seq<Row>, b: seq<Row>, w: Writes)
    ensures OnResults(s, a + b, w) == OnResults(OnResults(s, a, w), b, w)
  {
    if b == [] {
      assert a + b == a;
    } else {
      assert Front(a + b) == a + Front(b);
      OnResultsAppend(s, a, Front(b), w);
      assert Last(a + b) == Last(b);
    }
  }
}
