/**
 * cmd/gt-mcp/main.go, handleListDecodedData, with pkg/store/event_page.go: one page of the
 * decoded events that match a filter. Either the database counts and slices, or the
 * handler streams the candidates and filters them itself.
 */
module EventQuery {
  import opened Seqs
  import opened FilterPushdown

  const STREAM_BATCH := 500

  /** `filter` None is the empty filter. */
  datatype Query = Query(filter: Option<Node>, connID: string, semantics: set<string>, limit: int, offset: int)

  datatype Answer = Answer(total: nat, events: seq<Event>)

  /** The elements that satisfy `p`, in order. */
  function Select(rows: seq<Event>, p: Event -> bool): (r: seq<Event>)
    ensures |r| <= |rows|
  {
    if rows == [] then []
    else if p(Last(rows)) then Select(Front(rows), p) + [Last(rows)]
    else Select(Front(rows), p)
  }

  function Clip(i: int, n: nat): nat {
    if i < 0 then 0 else if i > n then n else i
  }

  /** The matches numbered offset + 1 to offset + limit. */
  function Page(matches: seq<Event>, offset: int, limit: int): seq<Event> {
    matches[Clip(offset, |matches|)..if limit <= 0 then Clip(offset, |matches|) else Clip(offset + limit, |matches|)]
  }

  /** What a LIMIT ? OFFSET ? clause returns: a negative offset counts as zero. */
  function LimitOffset(rows: seq<Event>, limit: nat, offset: int): seq<Event> {
    Page(rows, if offset < 0 then 0 else offset, limit)
  }

  // ---- the three conditions on an event -----------------------------------------------

  /** The filter, the connection and the labels asked for. */
  predicate Wanted(q: Query, other: Meaning, e: Event) {
    && (q.connID == "" || e.conn == Some(q.connID))
    && (q.semantics == {} || e.labels * q.semantics != {})
    && (q.filter.None? || Accepts(q.filter.value, e, other))
  }

  /** eventPageWhere: the condition the database evaluates. */
  predicate Candidate(q: Query, pd: Pushdown, e: Event) {
    pd.Admits(e) && (q.connID == "" || e.conn == Some(q.connID))
  }

  /** The test of the streaming path, on the capture context instead of the event index. */
  predicate Keeps(q: Query, other: Meaning, e: Event) {
    && (q.connID == "" || e.capture == Some(q.connID))
    && (q.semantics == {} || e.labels * q.semantics != {})
    && (q.filter.None? || Accepts(q.filter.value, e, other))
  }

  function WantedBy(q: Query, other: Meaning): Event -> bool {
    e => Wanted(q, other, e)
  }

  function CandidateFor(q: Query, pd: Pushdown): Event -> bool {
    e => Candidate(q, pd, e)
  }

  function KeptBy(q: Query, other: Meaning): Event -> bool {
    e => Keeps(q, other, e)
  }

  /** The answer asked for: every wanted event counted, and the requested slice of them. */
  function Expected(q: Query, other: Meaning, rows: seq<Event>): Answer {
    var matches := Select(rows, WantedBy(q, other));
    Answer(|matches|, Page(matches, q.offset, q.limit))
  }

  predicate SqlPath(q: Query) {
    (q.filter.None? || Parsed(q.filter).pure) && q.semantics == {}
  }

  /** What the handler returns for the rows of the session, newest first. */
  function Handled(q: Query, other: Meaning, rows: seq<Event>): Answer {
    var candidates := Select(rows, CandidateFor(q, Parsed(q.filter)));
    if SqlPath(q) then
      Answer(|candidates|, if q.limit <= 0 then [] else LimitOffset(candidates, q.limit, q.offset))
    else
      var kept := Select(candidates, KeptBy(q, other));
      Answer(|kept|, Page(kept, q.offset, q.limit))
  }

  // ---- the handler --------------------------------------------------------------------

  /** The matches seen so far, and those of them on the page. */
  method FilterBatch(q: Query, other: Meaning, batch: seq<Event>, total: nat, page: seq<Event>, ghost seen: seq<Event>)
      returns (total': nat, page': seq<Event>)
    requires total == |Select(seen, KeptBy(q, other))|
    requires page == Page(Select(seen, KeptBy(q, other)), q.offset, q.limit)
    ensures total' == |Select(seen + batch, KeptBy(q, other))|
    ensures page' == Page(Select(seen + batch, KeptBy(q, other)), q.offset, q.limit)
  {
    total', page' := total, page;
    ghost var p := KeptBy(q, other);
    assert seen + batch[..0] == seen;
    var i := 0;
    while i < |batch|
      invariant 0 <= i <= |batch|
      invariant total' == |Select(seen + batch[..i], p)|
      invariant page' == Page(Select(seen + batch[..i], p), q.offset, q.limit)
    {
      ghost var before := seen + batch[..i];
      assert seen + batch[..i + 1] == before + [batch[i]];
      SelectMore(before, batch[i], p);
      if Keeps(q, other, batch[i]) {
        PageMore(Select(before, p), batch[i], q.offset, q.limit);
        total' := total' + 1;
        if total' > q.offset && total' <= q.offset + q.limit {
          page' := page' + [batch[i]];
        }
      }
      i := i + 1;
    }
    assert batch[..i] == batch;
  }

  method ListDecodedData(q: Query, other: Meaning, rows: seq<Event>) returns (answer: Answer)
    ensures answer == Handled(q, other, rows)
  {
    var pd := ParseFilterPushdown(q.filter);
    var candidates := Select(rows, CandidateFor(q, pd));
    if (q.filter.None? || pd.pure) && q.semantics == {} {
      var pageLimit := if q.limit <= 0 then 1 else q.limit;
      var pageEvents := LimitOffset(candidates, pageLimit, q.offset);
      return Answer(|candidates|, if q.limit > 0 then pageEvents else []);
    }
    answer := StreamFilter(q, other, candidates);
  }

  /** StreamEventsDesc hands over the candidates in batches. */
  method StreamFilter(q: Query, other: Meaning, candidates: seq<Event>) returns (answer: Answer)
    ensures var kept := Select(candidates, KeptBy(q, other));
            answer == Answer(|kept|, Page(kept, q.offset, q.limit))
  {
    var total: nat, page: seq<Event>, rest := 0, [], candidates;
    ghost var seen: seq<Event> := [];
    assert page == Page(Select(seen, KeptBy(q, other)), q.offset, q.limit);
    while rest != []
      invariant seen + rest == candidates
      invariant total == |Select(seen, KeptBy(q, other))|
      invariant page == Page(Select(seen, KeptBy(q, other)), q.offset, q.limit)
      decreases |rest|
    {
      var n := if |rest| < STREAM_BATCH then |rest| else STREAM_BATCH;
      total, page := FilterBatch(q, other, rest[..n], total, page, seen);
      Moves(seen, rest, n);
      seen := seen + rest[..n];
      rest := rest[n..];
    }
    assert seen + [] == seen;
    answer := Answer(total, page);
  }

  lemma Moves(seen: seq<Event>, rest: seq<Event>, n: nat)
    requires n <= |rest|
    ensures seen + rest[..n] + rest[n..] == seen + rest
  {
  }

  lemma {:induction false} SelectMore(rows: seq<Event>, e: Event, p: Event -> bool)
    ensures Select(rows + [e], p) == if p(e) then Select(rows, p) + [e] else Select(rows, p)
  {
    assert Front(rows + [e]) == rows;
  }

  /** One more match goes on the page when its number is in range. */
  lemma {:induction false} PageMore(matches: seq<Event>, e: Event, offset: int, limit: int)
    ensures var n := |matches| + 1;
            var more := if offset < n <= offset + limit then [e] else [];
            Page(matches + [e], offset, limit) == Page(matches, offset, limit) + more
  {
    var n := |matches|;
    var from, to := Clip(offset, n), if limit <= 0 then Clip(offset, n) else Clip(offset + limit, n);
    assert (matches + [e])[..n] == matches;
    if offset < n + 1 <= offset + limit {
      assert to == n && (matches + [e])[from..n + 1] == matches[from..n] + [e];
    } else if from < to {
      assert (matches + [e])[from..to] == matches[from..to];
    }
  }

  // ---- both paths give the answer asked for -------------------------------------------

  lemma {:induction false} SelectSame(rows: seq<Event>, p: Event -> bool, q: Event -> bool)
    requires forall e | e in rows :: p(e) == q(e)
    ensures Select(rows, p) == Select(rows, q)
  {
    if rows != [] {
      SelectSame(Front(rows), p, q);
    }
  }

  lemma {:induction false} SelectTwice(rows: seq<Event>, p: Event -> bool, q: Event -> bool, both: Event -> bool)
    requires forall e | e in rows :: both(e) == (p(e) && q(e))
    ensures Select(Select(rows, p), q) == Select(rows, both)
  {
    if rows != [] {
      SelectTwice(Front(rows), p, q, both);
      if p(Last(rows)) {
        SelectMore(Select(Front(rows), p), Last(rows), q);
      }
    }
  }

  /** The capture context was built, and agrees with the event index it is built from. */
  predicate ContextBuilt(q: Query, rows: seq<Event>) {
    q.connID == "" || forall e | e in rows :: e.capture == e.conn
  }

  /** The database path does not look at it. */
  predicate Readable(q: Query, rows: seq<Event>) {
    SqlPath(q) || ContextBuilt(q, rows)
  }

  /** The filter is not reduced to a comparison with the empty string. */
  predicate LiteralNotEmpty(filter: Option<Node>) {
    filter.None? || ProtocolComparison(filter.value).None? || Pushes(filter.value)
  }

  /** On the database path candidates are the wanted events, unless the one literal is empty. */
  lemma {:induction false} SqlCandidates(q: Query, other: Meaning, rows: seq<Event>)
    requires SqlPath(q) && LiteralNotEmpty(q.filter)
    ensures Select(rows, CandidateFor(q, Parsed(q.filter))) == Select(rows, WantedBy(q, other))
  {
    forall e | e in rows
      ensures Candidate(q, Parsed(q.filter), e) == Wanted(q, other, e)
    {
      if q.filter.Some? {
        PureIsOneComparison(q.filter.value);
        PureIsExactIff(q.filter.value, other);
      }
    }
    SelectSame(rows, CandidateFor(q, Parsed(q.filter)), WantedBy(q, other));
  }

  /** On the streaming path nothing wanted is missing from the candidates. */
  lemma {:induction false} StreamedMatches(q: Query, other: Meaning, rows: seq<Event>)
    requires ContextBuilt(q, rows)
    ensures Select(Select(rows, CandidateFor(q, Parsed(q.filter))), KeptBy(q, other)) == Select(rows, WantedBy(q, other))
  {
    var pd := Parsed(q.filter);
    forall e | e in rows
      ensures Wanted(q, other, e) == (Candidate(q, pd, e) && Keeps(q, other, e))
    {
      if q.filter.Some? && Accepts(q.filter.value, e, other) {
        PushdownLosesNothing(q.filter.value, e, other);
      }
    }
    SelectTwice(rows, CandidateFor(q, pd), KeptBy(q, other), WantedBy(q, other));
  }

  /**
   * Whichever path is taken, the total is the number of wanted events and the page the
   * requested slice of them: provided the filter is not a comparison with the empty string,
   * the offset is not negative, and, when the events are streamed, the capture context that
   * they are then filtered by could be built.
   */
  lemma HandlerIsExact(q: Query, other: Meaning, rows: seq<Event>)
    requires LiteralNotEmpty(q.filter) && q.offset >= 0 && Readable(q, rows)
    ensures Handled(q, other, rows) == Expected(q, other, rows)
  {
    if SqlPath(q) {
      SqlCandidates(q, other, rows);
    } else {
      StreamedMatches(q, other, rows);
    }
  }

  /**
   * The count is right on the database path, for all tables, if and only if the literal is
   * not empty; on the streaming path it always is.
   */
  lemma {:induction false} TotalIsExactIff(q: Query, other: Meaning)
    requires q.semantics == {}
    ensures (forall rows :: Readable(q, rows) ==> Handled(q, other, rows).total == Expected(q, other, rows).total)
            <==> LiteralNotEmpty(q.filter)
  {
    if LiteralNotEmpty(q.filter) {
      forall rows | Readable(q, rows)
        ensures Handled(q, other, rows).total == Expected(q, other, rows).total
      {
        if SqlPath(q) {
          SqlCandidates(q, other, rows);
        } else {
          StreamedMatches(q, other, rows);
        }
      }
    } else {
      EmptyLiteralMiscounts(q, other);
    }
  }

  /** A one-row table for which a comparison with the empty string is miscounted. */
  lemma {:induction false} EmptyLiteralMiscounts(q: Query, other: Meaning)
    requires q.semantics == {} && !LiteralNotEmpty(q.filter)
    ensures exists rows :: ContextBuilt(q, rows) && Handled(q, other, rows).total != Expected(q, other, rows).total
  {
    var n := q.filter.value;
    PureIsOneComparison(n);
    PureIsExactIff(n, other);
    var e :| Accepts(n, e, other) != Parsed(Some(n)).Admits(e);
    PushdownLosesNothingHere(n, e, other);
    var conn := if q.connID == "" then None else Some(q.connID);
    var row := Event(e.id, e.protocol, conn, conn, e.labels, e.rest);
    ComparisonMeans(n, e, other);
    ComparisonMeans(n, row, other);
    SelectOne(row, CandidateFor(q, Parsed(q.filter)));
    SelectOne(row, WantedBy(q, other));
    assert ContextBuilt(q, [row]) && Handled(q, other, [row]).total == 1 && Expected(q, other, [row]).total == 0;
  }

  lemma {:induction false} PushdownLosesNothingHere(n: Node, e: Event, other: Meaning)
    ensures Accepts(n, e, other) ==> Parsed(Some(n)).Admits(e)
  {
    if Accepts(n, e, other) {
      PushdownLosesNothing(n, e, other);
    }
  }

  lemma {:induction false} SelectOne(e: Event, p: Event -> bool)
    ensures Select([e], p) == if p(e) then [e] else []
  {
    assert [] + [e] == [e];
    SelectMore([], e, p);
  }

  /**
   * With a negative offset the two paths differ: both pages start at the first match, but the
   * database's has `limit` rows and the streaming path's ends at offset + limit. They agree
   * exactly when the matches run out before that.
   */
  lemma {:induction false} NegativeOffsetAgreesIff(matches: seq<Event>, limit: nat, offset: int)
    requires offset < 0 < limit
    ensures LimitOffset(matches, limit, offset) == Page(matches, offset, limit)
            <==> |matches| <= offset + limit || matches == []
  {
    var n := |matches|;
    assert |LimitOffset(matches, limit, offset)| == Clip(limit, n);
    assert |Page(matches, offset, limit)| == Clip(offset + limit, n);
  }
}
