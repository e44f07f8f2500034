/**
 * pkg/spool/queue.go: the on-disk queue under the probe's uplink. Records are appended to
 * segment files; a cursor on disk says where a restarted process resumes. A position in
 * the log of all stored records stands for a (segment, offset) pair.
 */
module Spool {
  import opened Seqs
  import opened Packets

  const HEADER_SIZE := 4
  const CURSOR_SYNC_EVERY := 512

  datatype Record = Record(pkt: Packet, size: nat, seg: nat)

  /** Bytes on disk, length prefixes included. */
  function Bytes(rs: seq<Record>): nat {
    if rs == [] then 0 else HEADER_SIZE + rs[0].size + Bytes(rs[1..])
  }

  lemma {:induction false} BytesAppend(rs: seq<Record>, rec: Record)
    ensures Bytes(rs + [rec]) == Bytes(rs) + HEADER_SIZE + rec.size
  {
    if rs == [] {
      assert (rs + [rec])[1..] == [];
    } else {
      assert (rs + [rec])[1..] == rs[1..] + [rec];
      BytesAppend(rs[1..], rec);
    }
  }

  datatype Cursor = Cursor(seg: nat, at: nat)

  datatype Limits = Limits(maxBytes: nat, segBytes: nat)

  /** `firstSeg` is the lowest segment file left; `cursor` is what cursor.json says. */
  datatype Disk = Disk(cursor: Cursor, firstSeg: nat)

  datatype Tail = Tail(seg: nat, offset: nat)

  /** `acked` are the records behind the read cursor, `entries` the ones after it. */
  datatype State = State(acked: seq<Record>, entries: seq<Record>, nextIdx: nat, tail: Tail, since: nat, disk: Disk)
  {
    function Log(): seq<Record> {
      acked + entries
    }

    /** The read cursor: the first unacknowledged record, or the write position. */
    function Head(): Cursor {
      Cursor(if entries == [] then tail.seg else entries[0].seg, |acked|)
    }

    function InFlight(): seq<Record>
      requires nextIdx <= |entries|
    {
      entries[..nextIdx]
    }

    /** Where the next record goes: the read cursor once everything is acknowledged. */
    function End(): Cursor {
      Cursor(tail.seg, |Log()|)
    }

    /** What holds of a directory, whatever the last queue on it did. */
    ghost predicate Stored() {
      && nextIdx <= |entries|
      && Segmented(Log(), tail.seg)
      && Saved(Log(), tail.seg, disk.cursor)
      && disk.firstSeg <= tail.seg
    }

    /** What holds of a queue in use: no segment with an unacknowledged record was removed. */
    ghost predicate Valid() {
      && Stored()
      && disk.cursor.at + since <= |acked|
      && disk.firstSeg <= Head().seg
    }
  }

  /** Segment numbers never go down along the log. */
  ghost predicate Segmented(log: seq<Record>, last: nat) {
    && 1 <= last
    && (forall i | 0 <= i < |log| :: 1 <= log[i].seg <= last)
    && (forall i, j | 0 <= i < j < |log| :: log[i].seg <= log[j].seg)
  }

  /** The cursor's segment is not after that of the record it points at. */
  predicate Saved(log: seq<Record>, last: nat, c: Cursor) {
    c.at <= |log| && c.seg <= last && (c.at < |log| ==> c.seg <= log[c.at].seg)
  }

  const START := Cursor(1, 0)

  function Fresh(): State {
    State([], [], 0, Tail(1, 0), 0, Disk(START, 1))
  }

  // ---- operations ---------------------------------------------------------------------

  /** What the file system does during one append. */
  datatype Io = Io(rolls: bool, writes: bool, syncs: bool)

  /** The last one returns an error although the record is in the queue. */
  datatype Outcome = Stored | Rejected | StoredUnsynced

  function Rolled(tail: Tail, limits: Limits): Tail {
    if tail.offset >= limits.segBytes then Tail(tail.seg + 1, 0) else tail
  }

  function Appended(s: State, limits: Limits, pkt: Packet, size: nat, io: Io): (Outcome, State) {
    var total := HEADER_SIZE + size;
    var tail := Rolled(s.tail, limits);
    if Bytes(s.entries) + total > limits.maxBytes then (Rejected, s)
    else if tail != s.tail && !io.rolls then (Rejected, s)
    else if !io.writes then (Rejected, s.(tail := tail))
    else
      (if io.syncs then Stored else StoredUnsynced,
       s.(entries := s.entries + [Record(pkt, size, tail.seg)], tail := tail.(offset := tail.offset + total)))
  }

  /** How many of the `n` records from `at` on are in the same segment as the first. */
  function Together(rs: seq<Record>, at: nat, n: nat): (count: nat)
    requires at + n <= |rs|
    ensures count <= n && (n > 0 ==> count > 0)
    ensures forall i | at <= i < at + count :: rs[i].seg == rs[at].seg
    ensures count < n ==> rs[at + count].seg != rs[at].seg
  {
    if n == 0 then 0
    else if Together(rs, at, n - 1) == n - 1 && (n == 1 || rs[at + n - 1].seg == rs[at].seg) then n
    else Together(rs, at, n - 1)
  }

  /** Up to `n` records after those already delivered; None when the file cannot be read. */
  function Delivered(s: State, n: int, readable: bool): Option<(seq<Record>, State)>
    requires s.nextIdx <= |s.entries|
  {
    var wanted := if n <= 0 then 1 else n;
    var avail := |s.entries| - s.nextIdx;
    if avail == 0 then Some(([], s))
    else if !readable then None
    else
      var next := s.nextIdx + Together(s.entries, s.nextIdx, if wanted > avail then avail else wanted);
      Some((s.entries[s.nextIdx..next], s.(nextIdx := next)))
  }

  /** Acknowledges at most what is in flight; returns false when the cursor could not be saved. */
  function Acked(s: State, n: int, persists: bool): (bool, State)
    requires s.nextIdx <= |s.entries|
  {
    var m := if n > s.nextIdx then s.nextIdx else n;
    if m <= 0 then
      (true, s)
    else
      var t := State(s.acked + s.entries[..m], s.entries[m..], s.nextIdx - m, s.tail, s.since + m, s.disk);
      Settled(t, persists)
  }

  /** Every 512 records acknowledged the cursor is saved; then old segments go. */
  function Settled(s: State, persists: bool): (bool, State) {
    if s.since < CURSOR_SYNC_EVERY then (true, CleanUp(s))
    else if !persists then (false, s)
    else (true, CleanUp(s.(since := 0, disk := s.disk.(cursor := s.Head()))))
  }

  /** Removes the segment files before the read cursor. */
  function CleanUp(s: State): State {
    if s.disk.firstSeg < s.Head().seg then s.(disk := s.disk.(firstSeg := s.Head().seg)) else s
  }

  function Requeued(s: State): State {
    s.(nextIdx := 0)
  }

  // ---- closing and opening ------------------------------------------------------------

  function Written(disk: Disk, c: Cursor, saves: bool): Disk {
    if saves then disk.(cursor := c) else disk
  }

  /** Close writes the read cursor to disk, if it can. */
  function Closed(s: State, saves: bool): State {
    s.(disk := Written(s.disk, s.Head(), saves), since := if saves then 0 else s.since)
  }

  /**
   * What else can go wrong when a directory is opened: its segments cannot be listed; the
   * write position is known but the write segment or the cursor cannot be opened; no record
   * can be read; or reading stops after some. `saves`: the clean-up can write the cursor.
   */
  datatype Fault = NoFault | Unlisted | CursorUnread | RecordsUnread | CutShort

  datatype OpenIo = OpenIo(fault: Fault, saves: bool)

  /** Segment files before the cursor's go; a cursor in a file that is gone is an error. */
  function Cleared(disk: Disk): Disk {
    if disk.firstSeg < disk.cursor.seg then disk.(firstSeg := disk.cursor.seg) else disk
  }

  /**
   * The cursor that a failed opening leaves: Close writes the read cursor of a queue that was
   * not filled yet, which is the write position, or the start before that one is known.
   */
  function CursorLeft(s: State, fault: Fault): Cursor
    requires s.disk.cursor.at <= |s.Log()|
  {
    var c := s.disk.cursor;
    if fault.Unlisted? then START
    else if fault.CutShort? && s.disk.firstSeg <= c.seg && c.at < |s.Log()| then Cursor(s.Log()[c.at].seg, c.at)
    else s.End()
  }

  /** After a failure `acked` and `entries` are still those of the last queue on the directory. */
  function Opened(s: State, io: OpenIo): (bool, State)
    requires s.disk.cursor.at <= |s.Log()|
  {
    var c := s.disk.cursor;
    var disk := if io.fault.Unlisted? || io.fault.CursorUnread? then s.disk else Cleared(s.disk);
    if io.fault.NoFault? && s.disk.firstSeg <= c.seg then
      (true, State(s.Log()[..c.at], s.Log()[c.at..], 0, s.tail, 0, disk))
    else
      (false, s.(disk := Written(disk, CursorLeft(s, io.fault), io.saves)))
  }

  // ---- every operation keeps the state well formed ------------------------------------

  lemma {:induction false} SegmentedAppend(log: seq<Record>, last: nat, rec: Record)
    requires Segmented(log, last) && last <= rec.seg
    ensures Segmented(log + [rec], rec.seg)
  {
  }

  /** A record is stored at the end, or nothing is. */
  lemma {:induction false} AppendKeeps(s: State, limits: Limits, pkt: Packet, size: nat, io: Io)
    requires s.Valid()
    ensures var (outcome, t) := Appended(s, limits, pkt, size, io);
            && t.Valid() && t.acked == s.acked && t.nextIdx == s.nextIdx
            && t.entries == if outcome.Rejected? then s.entries
                            else s.entries + [Record(pkt, size, Rolled(s.tail, limits).seg)]
  {
    var rec := Record(pkt, size, Rolled(s.tail, limits).seg);
    SegmentedAppend(s.Log(), s.tail.seg, rec);
    assert s.acked + (s.entries + [rec]) == s.Log() + [rec];
  }

  /**
   * A record is rejected exactly when it does not fit beside what is unacknowledged, or the
   * segment is full and a new one cannot be opened, or the write fails; it is stored without
   * an error exactly when none of these happens and the sync succeeds. A stored record takes
   * its bytes of the limit and of the segment it was written to, a new one if the last was full.
   */
  lemma {:induction false} AppendOutcomeIff(s: State, limits: Limits, pkt: Packet, size: nat, io: Io)
    ensures var (outcome, t) := Appended(s, limits, pkt, size, io);
            var full := s.tail.offset >= limits.segBytes;
            var fails := Bytes(s.entries) + HEADER_SIZE + size > limits.maxBytes || (full && !io.rolls) || !io.writes;
            && (outcome.Rejected? <==> fails)
            && (outcome.Stored? <==> !fails && io.syncs)
            && (outcome.Rejected? ==> t.entries == s.entries)
            && (!outcome.Rejected? ==>
                  && Bytes(t.entries) == Bytes(s.entries) + HEADER_SIZE + size
                  && t.tail.seg == (if full then s.tail.seg + 1 else s.tail.seg)
                  && t.tail.offset == (if full then 0 else s.tail.offset) + HEADER_SIZE + size
                  && t.entries == s.entries + [Record(pkt, size, t.tail.seg)])
  {
    BytesAppend(s.entries, Record(pkt, size, Rolled(s.tail, limits).seg));
  }

  lemma {:induction false} BytesDrop(rs: seq<Record>, n: nat)
    requires n <= |rs|
    ensures Bytes(rs[n..]) <= Bytes(rs)
  {
    if n > 0 {
      BytesDrop(rs[1..], n - 1);
      assert rs[1..][n - 1..] == rs[n..];
    }
  }

  lemma {:induction false} AckKeeps(s: State, n: nat, persists: bool)
    requires s.Valid() && n <= s.nextIdx
    ensures var t := Acked(s, n, persists).1;
            && t.Valid() && t.Log() == s.Log()
            && t.acked == s.acked + s.entries[..n] && t.entries == s.entries[n..] && t.nextIdx == s.nextIdx - n
  {
    var t := Acked(s, n, persists).1;
    assert t.Log() == s.Log() by {
      assert s.acked + s.entries[..n] + s.entries[n..] == s.Log();
    }
    if 0 < n < |s.entries| {
      assert s.Log()[|s.acked|] == s.entries[0] && s.Log()[|s.acked| + n] == s.entries[n];
    }
  }

  lemma {:induction false} CloseKeeps(s: State, saves: bool)
    requires s.Valid()
    ensures Closed(s, saves).Valid() && Closed(s, saves).Log() == s.Log()
  {
    if s.entries != [] {
      assert s.Log()[|s.acked|] == s.entries[0];
    }
  }

  // ---- restarts -----------------------------------------------------------------------

  /** A directory stays one, and its records stay, whatever opening it does. */
  lemma {:induction false} OpeningKeeps(s: State, io: OpenIo)
    requires s.Stored()
    ensures Opened(s, io).1.Stored() && Opened(s, io).1.Log() == s.Log()
    ensures Opened(s, io).0 ==> Opened(s, io).1.Valid()
  {
    var c := s.disk.cursor;
    assert s.Log()[..c.at] + s.Log()[c.at..] == s.Log();
  }

  /**
   * Opening succeeds if and only if nothing goes wrong with the files and the segment that
   * the saved cursor points into was not removed. The queue then starts at that cursor.
   */
  lemma {:induction false} OpensIff(s: State, io: OpenIo)
    requires s.Stored()
    ensures Opened(s, io).0 <==> io.fault.NoFault? && s.disk.firstSeg <= s.disk.cursor.seg
    ensures Opened(s, io).0 ==>
              && |Opened(s, io).1.acked| == s.disk.cursor.at
              && Opened(s, io).1.entries == s.Log()[s.disk.cursor.at..]
              && Opened(s, io).1.disk.firstSeg == s.disk.cursor.seg
  {
  }

  /** Closing and opening again goes on exactly where the queue was. */
  lemma {:induction false} CloseThenOpenResumes(s: State)
    requires s.Valid()
    ensures Closed(s, true).Stored()
    ensures var (ok, t) := Opened(Closed(s, true), OpenIo(NoFault, true));
            ok && t.acked == s.acked && t.entries == s.entries && t.disk.cursor == s.Head()
  {
    assert s.Log()[..|s.acked|] == s.acked && s.Log()[|s.acked|..] == s.entries;
    if s.entries != [] {
      assert s.Log()[|s.acked|] == s.entries[0];
    }
  }

  /** The saved cursor is not past what was acknowledged. */
  predicate NotAhead(s: State) {
    s.disk.cursor.at <= |s.acked|
  }

  /** The segment of the saved cursor was removed, or reading fails before the first record. */
  predicate FailsUnfilled(s: State, fault: Fault) {
    fault.CursorUnread? || fault.RecordsUnread? || (!fault.Unlisted? && s.disk.cursor.seg < s.disk.firstSeg)
  }

  /** Opening fails before the queue is filled, and something is unacknowledged. */
  predicate Skips(s: State, io: OpenIo) {
    io.saves && s.entries != [] && FailsUnfilled(s, io.fault)
  }

  /**
   * An opening leaves a cursor past what was acknowledged if and only if it fails before the
   * queue is filled, its clean-up writes the cursor, and something is unacknowledged.
   */
  lemma {:induction false} CursorStaysBehindIff(s: State, io: OpenIo)
    requires s.Stored() && NotAhead(s)
    ensures NotAhead(Opened(s, io).1) <==> !Skips(s, io)
  {
  }

  /** Fewer than 512 records are acknowledged and not yet behind the saved cursor. */
  predicate Recent(s: State) {
    s.disk.cursor.at + s.since == |s.acked| && s.since < CURSOR_SYNC_EVERY
  }

  /** The opening after such a one succeeds, and has skipped everything unacknowledged. */
  lemma {:induction false} SkippedRecordsAreGone(s: State, io: OpenIo, saves: bool)
    requires s.Stored() && Skips(s, io)
    ensures var (ok, t) := Opened(Opened(s, io).1, OpenIo(NoFault, saves));
            !Opened(s, io).0 && ok && t.entries == [] && t.acked == s.Log()
  {
    OpeningKeeps(s, io);
    assert s.Log()[..|s.Log()|] == s.Log();
  }

  lemma {:induction false} TwoStored(a: Packet, b: Packet)
    ensures var limits, good := Limits(1000, 1), Io(true, true, true);
            Appended(Appended(Fresh(), limits, a, 10, good).1, limits, b, 10, good).1
            == State([], [Record(a, 10, 1), Record(b, 10, 2)], 0, Tail(2, 14), 0, Disk(START, 1))
  {
    var s := Appended(Fresh(), Limits(1000, 1), a, 10, Io(true, true, true)).1;
    assert s.entries == [Record(a, 10, 1)] && Bytes([Record(a, 10, 1)]) == 14;
    assert [Record(a, 10, 1)] + [Record(b, 10, 2)] == [Record(a, 10, 1), Record(b, 10, 2)];
  }

  lemma {:induction false} OneDone(a: Record, b: Record)
    requires a.seg == 1 && b.seg == 2
    ensures var s := State([], [a, b], 0, Tail(2, 14), 0, Disk(START, 1));
            && Delivered(s, 1, true) == Some(([a], s.(nextIdx := 1)))
            && Acked(s.(nextIdx := 1), 1, true).1 == State([a], [b], 0, Tail(2, 14), 1, Disk(START, 2))
  {
    assert [a, b][..1] == [a] && [a, b][1..] == [b] && [] + [a] == [a];
  }

  /**
   * The last record of a segment is acknowledged before the cursor is ever saved: its file
   * goes, the process stops, opening fails, and the next opening does not find the record
   * after it, which was never sent.
   */
  lemma {:induction false} RestartCanLoseRecords(a: Packet, b: Packet)
    ensures var limits, good, fine := Limits(1000, 1), Io(true, true, true), OpenIo(NoFault, true);
            var s := Appended(Appended(Fresh(), limits, a, 10, good).1, limits, b, 10, good).1;
            var t := Acked(Delivered(s, 1, true).value.1, 1, true).1;
            && t.Valid()
            && t.entries == [Record(b, 10, 2)]
            && !Opened(t, fine).0
            && Opened(Opened(t, fine).1, fine).0 && Opened(Opened(t, fine).1, fine).1.entries == []
  {
    TwoStored(a, b);
    OneDone(Record(a, 10, 1), Record(b, 10, 2));
    SkippedRecordsAreGone(State([Record(a, 10, 1)], [Record(b, 10, 2)], 0, Tail(2, 14), 1, Disk(START, 2)),
                          OpenIo(NoFault, true), true);
  }

  // ---- what a process leaves behind ---------------------------------------------------

  /** One call on a queue in use. */
  datatype Call = Appends(pkt: Packet, size: nat, io: Io) | Takes(n: int, readable: bool) | Acks(n: int, persists: bool)
                | Requeues | Closes(saves: bool)

  function Called(s: State, limits: Limits, call: Call): State
    requires s.nextIdx <= |s.entries|
  {
    match call
    case Appends(pkt, size, io) => Appended(s, limits, pkt, size, io).1
    case Takes(n, readable) =>
      var next := Delivered(s, n, readable);
      if next.Some? then next.value.1 else s
    case Acks(n, persists) => Acked(s, n, persists).1
    case Requeues => Requeued(s)
    case Closes(saves) => Closed(s, saves)
  }

  /** The call acknowledges something and returns without an error. */
  predicate Acknowledges(s: State, call: Call) {
    call.Acks? && s.nextIdx <= |s.entries| && s.nextIdx > 0 && call.n > 0 && Acked(s, call.n, call.persists).0
  }

  predicate CallStep(s: State, limits: Limits, call: Call, t: State) {
    s.nextIdx <= |s.entries| && t == Called(s, limits, call)
  }

  /** The states of a queue over a sequence of calls, from its opening on. */
  ghost predicate IsUse(states: seq<State>, limits: Limits, calls: seq<Call>) {
    && |states| == |calls| + 1
    && states[0].Valid() && states[0].disk.firstSeg <= states[0].disk.cursor.seg
    && forall i | 0 <= i < |calls| :: CallStep(states[i], limits, calls[i], states[i + 1])
  }

  lemma HeadIsNotBehind(s: State)
    requires s.Valid()
    ensures s.disk.cursor.seg <= s.Head().seg
  {
    if s.entries != [] {
      assert s.Log()[|s.acked|] == s.entries[0];
    }
  }

  /** A call moves the saved cursor forward only; an acknowledgement removes all up to the read cursor. */
  lemma {:induction false} CallKeeps(s: State, limits: Limits, call: Call)
    requires s.Valid()
    ensures var t := Called(s, limits, call);
            && t.Valid() && s.disk.cursor.seg <= t.disk.cursor.seg
            && s.disk.firstSeg <= t.disk.firstSeg
            && t.disk.firstSeg == if Acknowledges(s, call) then t.Head().seg else s.disk.firstSeg
  {
    match call
    case Appends(pkt, size, io) => AppendKeeps(s, limits, pkt, size, io);
    case Takes(n, readable) =>
    case Acks(n, persists) => AckMoves(s, n, persists);
    case Requeues =>
    case Closes(saves) =>
      CloseKeeps(s, saves);
      HeadIsNotBehind(s);
  }

  lemma {:induction false} AckMoves(s: State, n: int, persists: bool)
    requires s.Valid()
    ensures var t := Acked(s, n, persists).1;
            && t.Valid() && s.disk.cursor.seg <= t.disk.cursor.seg
            && s.disk.firstSeg <= t.disk.firstSeg
            && t.disk.firstSeg == if Acknowledges(s, Acks(n, persists)) then t.Head().seg else s.disk.firstSeg
  {
    if n > 0 && s.nextIdx > 0 {
      var m := if n > s.nextIdx then s.nextIdx else n;
      assert Acked(s, n, persists) == Acked(s, m, persists);
      assert Acked(s, m, persists).1.Valid() by {
        AckKeeps(s, m, persists);
      }
      HeadIsNotBehind(s);
      HeadMoves(s, m);
    }
  }

  lemma {:induction false} HeadMoves(s: State, m: nat)
    requires s.Valid() && m <= s.nextIdx
    ensures s.Head().seg <= State(s.acked + s.entries[..m], s.entries[m..], s.nextIdx - m, s.tail, s.since + m, s.disk).Head().seg
  {
    if s.entries != [] {
      assert s.Log()[|s.acked|] == s.entries[0];
      if m < |s.entries| {
        assert s.Log()[|s.acked| + m] == s.entries[m];
      }
    }
  }

  lemma {:induction false} RemovedUpTo(states: seq<State>, limits: Limits, calls: seq<Call>, n: nat, seg: nat)
    requires IsUse(states, limits, calls) && n <= |calls|
    ensures states[n].Valid() && states[0].disk.cursor.seg <= states[n].disk.cursor.seg
    ensures states[n].disk.firstSeg <= seg
            <==> && states[0].disk.firstSeg <= seg
                 && forall i | 0 <= i < n && Acknowledges(states[i], calls[i]) :: states[i + 1].Head().seg <= seg
  {
    if n > 0 {
      RemovedUpTo(states, limits, calls, n - 1, seg);
      assert CallStep(states[n - 1], limits, calls[n - 1], states[n]);
      CallKeeps(states[n - 1], limits, calls[n - 1]);
    }
  }

  /**
   * A process stops after any calls on a queue: the next opening succeeds, if nothing goes
   * wrong with the files, if and only if no acknowledgement since the queue was opened left
   * the read cursor in a later segment than the cursor on disk points into.
   */
  lemma {:induction false} OpensAfterUseIff(states: seq<State>, limits: Limits, calls: seq<Call>, io: OpenIo)
    requires IsUse(states, limits, calls)
    ensures var s := Last(states);
            && s.Valid()
            && (Opened(s, io).0
                <==> && io.fault.NoFault?
                     && forall i | 0 <= i < |calls| && Acknowledges(states[i], calls[i]) ::
                          states[i + 1].Head().seg <= s.disk.cursor.seg)
  {
    RemovedUpTo(states, limits, calls, |calls|, Last(states).disk.cursor.seg);
  }

  // ---- the queue ----------------------------------------------------------------------

  class Queue {
    const limits: Limits
    var entries: seq<Record>
    var nextIdx: nat
    var bytes: int
    var position: nat          // where entries[0] is in the log
    var tail: Tail
    var ackSinceCS: nat
    var disk: Disk
    ghost var acked: seq<Record>

    ghost predicate Valid()
      reads this
    {
      position == |acked| && nextIdx <= |entries| && bytes == Bytes(entries)
    }

    ghost function Value(): State
      reads this
    {
      State(acked, entries, nextIdx, tail, ackSinceCS, disk)
    }

    constructor (limits: Limits)
      ensures Valid() && Value() == Fresh() && this.limits == limits
    {
      this.limits := limits;
      position, entries, nextIdx, bytes := 0, [], 0, 0;
      tail, ackSinceCS, disk := Tail(1, 0), 0, Disk(Cursor(1, 0), 1);
      acked := [];
    }

    method Append(pkt: Packet, size: nat, io: Io) returns (outcome: Outcome)
      requires Valid()
      modifies this
      ensures Valid() && (outcome, Value()) == Appended(old(Value()), limits, pkt, size, io)
    {
      var total := HEADER_SIZE + size;
      if size > limits.maxBytes {
        return Rejected;
      }
      if bytes + total > limits.maxBytes {
        return Rejected;
      }
      if tail.offset >= limits.segBytes {
        if !io.rolls {
          return Rejected;
        }
        tail := Tail(tail.seg + 1, 0);
      }
      if !io.writes {
        return Rejected;
      }
      BytesAppend(entries, Record(pkt, size, tail.seg));
      entries := entries + [Record(pkt, size, tail.seg)];
      tail := tail.(offset := tail.offset + total);
      bytes := bytes + total;
      outcome := if io.syncs then Stored else StoredUnsynced;
    }

    /** Reads the records from the read cursor up to `end`. */
    method Scan(log: seq<Record>, end: nat)
      requires position == |acked| && position <= end <= |log|
      requires entries == [] && nextIdx == 0 && bytes == 0
      modifies this`entries, this`bytes
      ensures Valid() && entries == log[position..end]
    {
      var i := position;
      while i < end
        invariant position <= i <= end && entries == log[position..i] && bytes == Bytes(entries)
      {
        BytesAppend(entries, log[i]);
        entries := entries + [log[i]];
        bytes := bytes + HEADER_SIZE + log[i].size;
        i := i + 1;
      }
    }

    /** How many of the next `wanted` records can be read in one go. */
    method SameSegment(wanted: nat) returns (count: nat)
      requires 0 < wanted && nextIdx + wanted <= |entries|
      ensures count == Together(entries, nextIdx, wanted)
    {
      count := 0;
      while count < wanted && entries[nextIdx + count].seg == entries[nextIdx].seg
        invariant 0 <= count <= wanted
        invariant forall i | nextIdx <= i < nextIdx + count :: entries[i].seg == entries[nextIdx].seg
      {
        count := count + 1;
      }
      TogetherIs(entries, nextIdx, wanted, count);
    }

    /** Delivers up to n records of one segment, without acknowledging them. */
    method Next(n: int, readable: bool) returns (ok: bool, out: seq<Record>)
      requires Valid()
      modifies this`nextIdx
      ensures Valid()
      ensures var next := Delivered(old(Value()), n, readable);
              ok == next.Some? && if ok then next.value == (out, Value()) else Value() == old(Value()) && out == []
    {
      ghost var before := Value();
      var wanted := if n <= 0 then 1 else n;
      var avail := |entries| - nextIdx;
      if avail == 0 {
        return true, [];
      }
      if wanted > avail {
        wanted := avail;
      }
      var count := SameSegment(wanted);
      if !readable {
        return false, [];
      }
      ok, out := true, entries[nextIdx..nextIdx + count];
      nextIdx := nextIdx + count;
      assert Value() == before.(nextIdx := before.nextIdx + count);
    }

    /** The bytes of the first m entries no longer count. */
    method Deduct(m: nat)
      requires m <= |entries| && bytes == Bytes(entries)
      modifies this`bytes
      ensures bytes == Bytes(entries[m..])
    {
      var i := 0;
      while i < m
        invariant i <= m && bytes == Bytes(entries[i..])
      {
        assert entries[i..][1..] == entries[i + 1..];
        bytes := bytes - (HEADER_SIZE + entries[i].size);
        i := i + 1;
      }
    }

    /** Confirms the first n delivered records and moves the read cursor. */
    method AckN(n: int, persists: bool) returns (ok: bool)
      requires Valid()
      modifies this
      ensures Valid() && (ok, Value()) == Acked(old(Value()), n, persists)
    {
      var m := if n > nextIdx then nextIdx else n;
      if m <= 0 {
        return true;
      }
      Deduct(m);
      position, acked, entries := position + m, acked + entries[..m], entries[m..];
      nextIdx := nextIdx - m;
      ackSinceCS := ackSinceCS + m;
      ok := Settle(persists);
    }

    method Settle(persists: bool) returns (ok: bool)
      requires Valid()
      modifies this`disk, this`ackSinceCS
      ensures Valid() && (ok, Value()) == Settled(old(Value()), persists)
    {
      var cursor := Cursor(if |entries| == 0 then tail.seg else entries[0].seg, position);
      if ackSinceCS >= CURSOR_SYNC_EVERY {
        if !persists {
          return false;
        }
        disk := disk.(cursor := cursor);
        ackSinceCS := 0;
      }
      if disk.firstSeg < cursor.seg {
        disk := disk.(firstSeg := cursor.seg);
      }
      return true;
    }

    /** Puts everything in flight back at the head of the queue. */
    method Requeue()
      requires Valid()
      modifies this`nextIdx
      ensures Valid() && Value() == Requeued(old(Value()))
    {
      nextIdx := 0;
    }

    /** Writes the read cursor; the records stay on disk. */
    method Close(saves: bool) returns (ok: bool)
      requires Valid()
      modifies this`disk, this`ackSinceCS
      ensures Valid() && ok == saves && Value() == Closed(old(Value()), saves)
    {
      if saves {
        disk := disk.(cursor := Cursor(if |entries| == 0 then tail.seg else entries[0].seg, position));
        ackSinceCS := 0;
      }
      return saves;
    }
  }

  /**
   * Opens the directory with these records in its files, up to `tail`. Null after a failure;
   * `left` is what is then on disk.
   */
  method Open(limits: Limits, log: seq<Record>, tail: Tail, disk: Disk, io: OpenIo) returns (q: Queue?, left: Disk)
    requires disk.cursor.at <= |log|
    ensures var (ok, t) := Opened(State(log, [], 0, tail, 0, disk), io);
            && (ok <==> q != null)
            && (q != null ==> fresh(q) && q.Valid() && q.limits == limits && q.Value() == t)
            && left == t.disk
  {
    q, left := null, disk;
    assert log + [] == log;
    if io.fault.Unlisted? {
      left := Written(left, START, io.saves);
      return;
    }
    if io.fault.CursorUnread? {
      left := Written(left, Cursor(tail.seg, |log|), io.saves);
      return;
    }
    left := DropBefore(left, disk.cursor.seg);
    if disk.cursor.seg < left.firstSeg || io.fault.RecordsUnread? {
      left := Written(left, Cursor(tail.seg, |log|), io.saves);
      return;
    }
    q := new Queue(limits);
    q.acked, q.position, q.tail, q.disk := log[..disk.cursor.at], disk.cursor.at, tail, left;
    q.Scan(log, if io.fault.CutShort? && disk.cursor.at < |log| then disk.cursor.at + 1 else |log|);
    if io.fault.CutShort? {
      var saved := q.Close(io.saves);
      q, left := null, q.disk;
    }
  }

  /** Removes the segment files before that of the cursor. */
  method DropBefore(disk: Disk, seg: nat) returns (left: Disk)
    ensures left == if disk.firstSeg < seg then disk.(firstSeg := seg) else disk
  {
    left := disk;
    while left.firstSeg < seg
      invariant left.(firstSeg := disk.firstSeg) == disk
      invariant disk.firstSeg <= left.firstSeg
      invariant left.firstSeg <= seg || left == disk
    {
      left := left.(firstSeg := left.firstSeg + 1);
    }
  }

  /** The loop of Next stops where Together does. */
  lemma {:induction false} TogetherIs(rs: seq<Record>, at: nat, n: nat, count: nat)
    requires at + n <= |rs| && 0 < count <= n
    requires forall i | at <= i < at + count :: rs[i].seg == rs[at].seg
    requires count < n ==> rs[at + count].seg != rs[at].seg
    ensures Together(rs, at, n) == count
  {
  }
}
