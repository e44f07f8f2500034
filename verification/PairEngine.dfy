/**
 * cmd/gt-pipeline/semantic_hook.go, applyPairs: requests and responses are paired by the
 * hits of pair rules. A hit waits in a pool until its counterpart arrives.
 */
module PairEngine {
  import opened Seqs

  const MAX_PENDING := 4096
  const PENDING_TTL := 30
  const EVICT_EVERY := 512

  /** The side of a rule a hit is on: the request's or the response's. */
  datatype Side = RequestSide | ResponseSide

  datatype Hit = Hit(ruleId: string, key: string, side: Side)

  /** A hit that waits, the event it belongs to, that event's connection, and since when. */
  datatype Pending<E> = Pending(hit: Hit, evt: E, conn: string, at: int)

  datatype Pool<E> = Pool(pending: map<string, Pending<E>>, inserts: nat)

  /** rule.MatchPair: same rule and key, different sides. */
  predicate MatchPair(a: Hit, b: Hit) {
    a.ruleId != "" && a.ruleId == b.ruleId && a.key == b.key && a.side != b.side
  }

  function MapKey(conn: string, h: Hit): string {
    conn + "\0" + h.ruleId + "\0" + h.key
  }

  function Unexpired<E>(pending: map<string, Pending<E>>, now: int): map<string, Pending<E>> {
    map k | k in pending && now - pending[k].at <= PENDING_TTL :: pending[k]
  }

  function EvictExpired<E>(pending: map<string, Pending<E>>, now: int): map<string, Pending<E>> {
    if |Unexpired(pending, now)| >= MAX_PENDING then map[] else Unexpired(pending, now)
  }

  predicate Matches<E>(p: Pool<E>, conn: string, h: Hit) {
    var k := MapKey(conn, h);
    k in p.pending && p.pending[k].conn == conn && MatchPair(p.pending[k].hit, h)
  }

  function Inserted<E>(p: Pool<E>, evt: E, conn: string, h: Hit, now: int): Pool<E> {
    var room := if |p.pending| >= MAX_PENDING then EvictExpired(p.pending, now) else p.pending;
    var more := room[MapKey(conn, h) := Pending(h, evt, conn, now)];
    Pool(if (p.inserts + 1) % EVICT_EVERY == 0 then EvictExpired(more, now) else more, p.inserts + 1)
  }

  /** The pool after a hit: its counterpart is taken out, or the hit is put in. */
  function After<E>(p: Pool<E>, evt: E, conn: string, h: Hit, now: int): Pool<E> {
    if Matches(p, conn, h) then p.(pending := p.pending - {MapKey(conn, h)})
    else Inserted(p, evt, conn, h, now)
  }

  lemma {:induction false} SmallerMap<E>(a: map<string, Pending<E>>, b: map<string, Pending<E>>)
    requires a.Keys <= b.Keys
    ensures |a| <= |b|
  {
    SubsetSize(a.Keys, b.Keys);
  }

  lemma {:induction false} HitKeepsBound<E>(p: Pool<E>, evt: E, conn: string, h: Hit, now: int)
    requires |p.pending| <= MAX_PENDING
    ensures |After(p, evt, conn, h, now).pending| <= MAX_PENDING
  {
    var k := MapKey(conn, h);
    SmallerMap(p.pending - {k}, p.pending);
    var room := if |p.pending| >= MAX_PENDING then EvictExpired(p.pending, now) else p.pending;
    var more := room[k := Pending(h, evt, conn, now)];
    assert |more| <= |room| + 1 by {
      assert more.Keys == room.Keys + {k};
    }
    SmallerMap(Unexpired(more, now), more);
  }

  /** All hits of one event, in order. */
  function AfterAll<E>(p: Pool<E>, evt: E, conn: string, hits: seq<Hit>, now: int): Pool<E>
    decreases |hits|
  {
    if hits == [] then p else AfterAll(After(p, evt, conn, hits[0], now), evt, conn, hits[1..], now)
  }

  // ---- runs ---------------------------------------------------------------------------

  /** One hit of one event: the events of a run are numbered, and so are their hits. */
  datatype Input = Input(event: nat, conn: string, hit: Hit, now: int)
  {
    function Key(): string {
      MapKey(conn, hit)
    }
  }

  /** Which hit of the run, and which event. */
  datatype Arrival = Arrival(n: nat, event: nat)

  predicate Steps(p: Pool<Arrival>, n: nat, i: Input, q: Pool<Arrival>) {
    q == After(p, Arrival(n, i.event), i.conn, i.hit, i.now)
  }

  predicate IsRun(t: seq<Input>, pools: seq<Pool<Arrival>>) {
    && |pools| == |t| + 1 && pools[0] == Pool(map[], 0)
    && forall n | 0 <= n < |t| :: Steps(pools[n], n, t[n], pools[n + 1])
  }

  /** The hit that hit n is paired with when it arrives. */
  function Partner(t: seq<Input>, pools: seq<Pool<Arrival>>, n: nat): Option<nat>
    requires n < |t| < |pools|
  {
    if Matches(pools[n], t[n].conn, t[n].hit) then Some(pools[n].pending[t[n].Key()].evt.n) else None
  }

  /** Hit n was put in the pool and an eviction threw this key out while handling it. */
  predicate EvictedBy(t: seq<Input>, pools: seq<Pool<Arrival>>, n: nat, key: string)
    requires n < |t| < |pools|
  {
    && (key in pools[n].pending || key == t[n].Key()) && key !in pools[n + 1].pending
    && Partner(t, pools, n) == None
  }

  /** Hit m waits for its counterpart after the first n hits. */
  ghost predicate Waits(t: seq<Input>, pools: seq<Pool<Arrival>>, m: nat, n: nat)
    requires m < n <= |t| < |pools|
  {
    && Partner(t, pools, m) == None
    && (forall k: nat | m < k < n :: t[k].Key() != t[m].Key())
    && (forall k: nat | m <= k < n :: !EvictedBy(t, pools, k, t[m].Key()))
  }

  /** A pool entry is the hit that waits under its key; without one no hit waits. */
  ghost predicate Known(t: seq<Input>, pools: seq<Pool<Arrival>>, n: nat, key: string)
    requires n <= |t| < |pools|
  {
    if key in pools[n].pending then
      var e := pools[n].pending[key];
      && e.evt.n < n && t[e.evt.n].Key() == key && Waits(t, pools, e.evt.n, n)
      && e.hit == t[e.evt.n].hit && e.conn == t[e.evt.n].conn && e.evt.event == t[e.evt.n].event
    else
      forall m: nat | m < n && t[m].Key() == key :: !Waits(t, pools, m, n)
  }

  /** A hit leaves the other keys alone, unless it evicts them; its own key is taken or set. */
  lemma {:induction false} OtherKeys<E>(p: Pool<E>, evt: E, conn: string, h: Hit, now: int, key: string)
    requires key != MapKey(conn, h)
    ensures var q := After(p, evt, conn, h, now);
            && (key in q.pending ==> key in p.pending && q.pending[key] == p.pending[key])
            && (key in p.pending && Matches(p, conn, h) ==> key in q.pending)
  {
  }

  lemma {:induction false} OwnKey<E>(p: Pool<E>, evt: E, conn: string, h: Hit, now: int)
    ensures var q := After(p, evt, conn, h, now);
            && (MapKey(conn, h) in q.pending ==> q.pending[MapKey(conn, h)] == Pending(h, evt, conn, now))
            && (MapKey(conn, h) in q.pending ==> !Matches(p, conn, h))
  {
  }

  lemma {:induction false} KnownStepOther(t: seq<Input>, pools: seq<Pool<Arrival>>, n: nat, key: string)
    requires n < |t| < |pools| && Steps(pools[n], n, t[n], pools[n + 1]) && Known(t, pools, n, key)
    requires key != t[n].Key()
    ensures Known(t, pools, n + 1, key)
  {
    var before, after := pools[n].pending, pools[n + 1].pending;
    OtherKeys(pools[n], Arrival(n, t[n].event), t[n].conn, t[n].hit, t[n].now, key);
    if key in after {
      assert Waits(t, pools, before[key].evt.n, n + 1);
    } else if key in before {
      assert EvictedBy(t, pools, n, key);
    } else {
      forall m: nat | m < n + 1 && t[m].Key() == key
        ensures !Waits(t, pools, m, n + 1)
      {
        assert !Waits(t, pools, m, n);
      }
    }
  }

  lemma {:induction false} KnownStepOwn(t: seq<Input>, pools: seq<Pool<Arrival>>, n: nat)
    requires n < |t| < |pools| && Steps(pools[n], n, t[n], pools[n + 1])
    ensures Known(t, pools, n + 1, t[n].Key())
  {
    var key, after := t[n].Key(), pools[n + 1].pending;
    OwnKey(pools[n], Arrival(n, t[n].event), t[n].conn, t[n].hit, t[n].now);
    if key in after {
      assert Waits(t, pools, n, n + 1);
    } else if Partner(t, pools, n) == None {
      assert EvictedBy(t, pools, n, key);
    }
  }

  lemma {:induction false} KnownStep(t: seq<Input>, pools: seq<Pool<Arrival>>, n: nat, key: string)
    requires n < |t| < |pools| && Steps(pools[n], n, t[n], pools[n + 1]) && Known(t, pools, n, key)
    ensures Known(t, pools, n + 1, key)
  {
    if key == t[n].Key() {
      KnownStepOwn(t, pools, n);
    } else {
      KnownStepOther(t, pools, n, key);
    }
  }

  lemma {:induction false} AlwaysKnown(t: seq<Input>, pools: seq<Pool<Arrival>>, n: nat, key: string)
    requires IsRun(t, pools) && n <= |t|
    ensures Known(t, pools, n, key)
  {
    if n > 0 {
      AlwaysKnown(t, pools, n - 1, key);
      KnownStep(t, pools, n - 1, key);
    }
  }

  /**
   * Hit n is paired with hit m if and only if m came first, is the hit waiting under the same
   * pool key (not paired itself, replaced or evicted since), belongs to the same connection,
   * rule and key, and is on the other side.
   */
  lemma {:induction false} PairedIff(t: seq<Input>, pools: seq<Pool<Arrival>>, m: nat, n: nat)
    requires IsRun(t, pools) && m < n < |t|
    ensures Partner(t, pools, n) == Some(m)
            <==> && t[m].Key() == t[n].Key() && Waits(t, pools, m, n)
                 && t[m].conn == t[n].conn && MatchPair(t[m].hit, t[n].hit)
  {
    AlwaysKnown(t, pools, n, t[n].Key());
    var pending := pools[n].pending;
    if t[m].Key() == t[n].Key() && Waits(t, pools, m, n) {
      var e := pending[t[n].Key()].evt.n;
      assert e == m;
    }
  }

  /** The partner always came earlier, so a request and its response may arrive in either order. */
  lemma {:induction false} PartnerIsEarlier(t: seq<Input>, pools: seq<Pool<Arrival>>, n: nat)
    requires IsRun(t, pools) && n < |t| && Partner(t, pools, n).Some?
    ensures Partner(t, pools, n).value < n
  {
    AlwaysKnown(t, pools, n, t[n].Key());
  }

  /** Every hit is used in at most one pair: no two hits take the same one, and none takes one that was paired. */
  lemma {:induction false} HitsAreUsedOnce(t: seq<Input>, pools: seq<Pool<Arrival>>, n: nat, k: nat)
    requires IsRun(t, pools) && n < k < |t| && Partner(t, pools, n).Some? && Partner(t, pools, k).Some?
    ensures Partner(t, pools, n) != Partner(t, pools, k) && Partner(t, pools, k).value != n
  {
    PartnerIsEarlier(t, pools, n);
    PartnerIsEarlier(t, pools, k);
    var m := Partner(t, pools, k).value;
    PairedIff(t, pools, m, k);
    if Partner(t, pools, n) == Some(m) {
      PairedIff(t, pools, m, n);
    }
  }

  // ---- what a pair writes -------------------------------------------------------------

  datatype Trace = Trace(corr: string, causation: string, corrKey: Option<string>)

  function Preserved(t: Trace, pairKey: string): Trace {
    if t.corr == "" || t.corr == pairKey then t else t.(corrKey := Some(t.corr))
  }

  /** The traces of all events after a pair; `id` names the request. */
  function Joined<E>(traces: map<E, Trace>, req: E, resp: E, id: string): map<E, Trace>
    requires req in traces && resp in traces
  {
    var kept := traces[req := Preserved(traces[req], id)];
    var both := kept[resp := Preserved(kept[resp], id)];
    var one := both[req := both[req].(corr := id)];
    one[resp := one[resp].(corr := id, causation := id)]
  }

  /**
   * Both events of a pair carry the request's id as correlation and the response names the
   * request as its cause; nothing else changes, except that the correlation key the plugin
   * had declared is kept aside.
   */
  lemma JoinedMeans<E>(traces: map<E, Trace>, req: E, resp: E, id: string, e: E)
    requires req in traces && resp in traces && e in traces
    ensures var t, u := traces[e], Joined(traces, req, resp, id)[e];
            && (e == req || e == resp ==> u.corr == id)
            && (e == resp ==> u.causation == id)
            && (e != req && e != resp ==> u == t)
            && (e == req != resp ==> u.causation == t.causation)
            && (e == req || e == resp ==>
                  u.corrKey == if t.corr == "" || t.corr == id then t.corrKey else Some(t.corr))
  {
  }

  // ---- what a run writes --------------------------------------------------------------

  /** The event that hit n's counterpart belongs to. */
  function Other(t: seq<Input>, pools: seq<Pool<Arrival>>, n: nat): nat
    requires n < |t| < |pools| && Partner(t, pools, n).Some?
  {
    pools[n].pending[t[n].Key()].evt.event
  }

  function Request(t: seq<Input>, pools: seq<Pool<Arrival>>, n: nat): nat
    requires n < |t| < |pools| && Partner(t, pools, n).Some?
  {
    if t[n].hit.side == RequestSide then t[n].event else Other(t, pools, n)
  }

  function Response(t: seq<Input>, pools: seq<Pool<Arrival>>, n: nat): nat
    requires n < |t| < |pools| && Partner(t, pools, n).Some?
  {
    if t[n].hit.side == RequestSide then Other(t, pools, n) else t[n].event
  }

  /** Hit n makes a pair with event e in it; with e as the response. */
  predicate Touches(t: seq<Input>, pools: seq<Pool<Arrival>>, n: nat, e: nat)
    requires n < |t| < |pools|
  {
    Partner(t, pools, n).Some? && (Request(t, pools, n) == e || Response(t, pools, n) == e)
  }

  predicate Answers(t: seq<Input>, pools: seq<Pool<Arrival>>, n: nat, e: nat)
    requires n < |t| < |pools|
  {
    Partner(t, pools, n).Some? && Response(t, pools, n) == e
  }

  /** The id that the pair of hit n writes: the request's. */
  function PairId(t: seq<Input>, pools: seq<Pool<Arrival>>, ids: map<nat, string>, n: nat): string
    requires n < |t| < |pools|
  {
    if Partner(t, pools, n).Some? && Request(t, pools, n) in ids then ids[Request(t, pools, n)] else ""
  }

  function NextTraces(t: seq<Input>, pools: seq<Pool<Arrival>>, ids: map<nat, string>, n: nat, traces: map<nat, Trace>)
    : map<nat, Trace>
    requires n < |t| < |pools|
  {
    if Partner(t, pools, n).Some? && Request(t, pools, n) in traces && Response(t, pools, n) in traces then
      Joined(traces, Request(t, pools, n), Response(t, pools, n), PairId(t, pools, ids, n))
    else
      traces
  }

  predicate TraceSteps(t: seq<Input>, pools: seq<Pool<Arrival>>, ids: map<nat, string>, n: nat,
      before: map<nat, Trace>, after: map<nat, Trace>)
    requires n < |t| < |pools|
  {
    after == NextTraces(t, pools, ids, n, before)
  }

  /** A run with the traces of its events: traces[0] is what the plugin set, ids are not empty. */
  predicate IsTraced(t: seq<Input>, pools: seq<Pool<Arrival>>, ids: map<nat, string>, traces: seq<map<nat, Trace>>) {
    && IsRun(t, pools) && |traces| == |t| + 1
    && traces[0].Keys == ids.Keys
    && (forall n | 0 <= n < |t| :: t[n].event in ids)
    && (forall e | e in ids :: ids[e] != "")
    && (forall n | 0 <= n < |t| :: TraceSteps(t, pools, ids, n, traces[n], traces[n + 1]))
  }

  /** The sides of the two hits decide who is the request, whichever came first. */
  lemma {:induction false} RolesFollowSides(t: seq<Input>, pools: seq<Pool<Arrival>>, n: nat)
    requires IsRun(t, pools) && n < |t| && Partner(t, pools, n).Some?
    ensures var m := Partner(t, pools, n).value;
            && m < n
            && (t[n].hit.side == RequestSide ==> Request(t, pools, n) == t[n].event && Response(t, pools, n) == t[m].event)
            && (t[m].hit.side == RequestSide ==> Request(t, pools, n) == t[m].event && Response(t, pools, n) == t[n].event)
            && (t[n].hit.side == RequestSide <==> t[m].hit.side == ResponseSide)
  {
    AlwaysKnown(t, pools, n, t[n].Key());
  }

  lemma {:induction false} TracesStay(t: seq<Input>, pools: seq<Pool<Arrival>>, ids: map<nat, string>,
      traces: seq<map<nat, Trace>>, n: nat)
    requires IsTraced(t, pools, ids, traces) && n <= |t|
    ensures traces[n].Keys == ids.Keys
  {
    if n > 0 {
      TracesStay(t, pools, ids, traces, n - 1);
      assert TraceSteps(t, pools, ids, n - 1, traces[n - 1], traces[n]);
    }
  }

  /** One hit, seen from one event. */
  lemma {:induction false} TraceStep(t: seq<Input>, pools: seq<Pool<Arrival>>, ids: map<nat, string>,
      traces: seq<map<nat, Trace>>, n: nat, e: nat)
    requires IsTraced(t, pools, ids, traces) && n < |t| && e in ids
    ensures e in traces[n] && e in traces[n + 1]
    ensures var id, u, v := PairId(t, pools, ids, n), traces[n][e], traces[n + 1][e];
            && (!Touches(t, pools, n, e) ==> v == u)
            && (!Answers(t, pools, n, e) ==> v.causation == u.causation)
            && (Answers(t, pools, n, e) ==> v.causation == id)
            && (Touches(t, pools, n, e) ==>
                  id != "" && v.corr == id && v.corrKey == Preserved(u, id).corrKey)
  {
    TracesStay(t, pools, ids, traces, n);
    TracesStay(t, pools, ids, traces, n + 1);
    assert TraceSteps(t, pools, ids, n, traces[n], traces[n + 1]);
    if Partner(t, pools, n).Some? {
      RolesFollowSides(t, pools, n);
      JoinedMeans(traces[n], Request(t, pools, n), Response(t, pools, n), PairId(t, pools, ids, n), e);
    }
  }

  /** Of the first n hits, k is the last one that makes a pair with e. */
  ghost predicate IsLastPair(t: seq<Input>, pools: seq<Pool<Arrival>>, e: nat, k: nat, n: nat)
    requires n <= |t| < |pools|
  {
    k < n && Touches(t, pools, k, e) && forall j: nat | k < j < n :: !Touches(t, pools, j, e)
  }

  ghost predicate IsLastAnswer(t: seq<Input>, pools: seq<Pool<Arrival>>, e: nat, k: nat, n: nat)
    requires n <= |t| < |pools|
  {
    k < n && Answers(t, pools, k, e) && forall j: nat | k < j < n :: !Answers(t, pools, j, e)
  }

  lemma {:induction false} LastPairDecides(t: seq<Input>, pools: seq<Pool<Arrival>>, ids: map<nat, string>,
      traces: seq<map<nat, Trace>>, e: nat, n: nat, k: nat)
    requires IsTraced(t, pools, ids, traces) && n <= |t| && e in ids && IsLastPair(t, pools, e, k, n)
    ensures e in traces[n] && traces[n][e].corr == PairId(t, pools, ids, k)
  {
    TraceStep(t, pools, ids, traces, n - 1, e);
    if k < n - 1 {
      assert IsLastPair(t, pools, e, k, n - 1);
      LastPairDecides(t, pools, ids, traces, e, n - 1, k);
    }
  }

  lemma {:induction false} LastAnswerDecides(t: seq<Input>, pools: seq<Pool<Arrival>>, ids: map<nat, string>,
      traces: seq<map<nat, Trace>>, e: nat, n: nat, k: nat)
    requires IsTraced(t, pools, ids, traces) && n <= |t| && e in ids && IsLastAnswer(t, pools, e, k, n)
    ensures e in traces[n] && traces[n][e].causation == PairId(t, pools, ids, k)
  {
    TraceStep(t, pools, ids, traces, n - 1, e);
    if k < n - 1 {
      assert IsLastAnswer(t, pools, e, k, n - 1);
      LastAnswerDecides(t, pools, ids, traces, e, n - 1, k);
    }
  }

  lemma {:induction false} UnpairedStays(t: seq<Input>, pools: seq<Pool<Arrival>>, ids: map<nat, string>,
      traces: seq<map<nat, Trace>>, e: nat, n: nat)
    requires IsTraced(t, pools, ids, traces) && n <= |t| && e in ids
    ensures e in traces[0] && e in traces[n]
    ensures (forall k: nat | k < n :: !Touches(t, pools, k, e)) ==> traces[n][e] == traces[0][e]
    ensures (forall k: nat | k < n :: !Answers(t, pools, k, e)) ==> traces[n][e].causation == traces[0][e].causation
  {
    if n > 0 {
      UnpairedStays(t, pools, ids, traces, e, n - 1);
      TraceStep(t, pools, ids, traces, n - 1, e);
    }
  }

  /**
   * At every moment of every run: an event's correlation is the request's id of the last pair
   * it is in, its cause that of the last pair it answers, and both are the plugin's as long as
   * there is no such pair.
   */
  lemma {:induction false} TracesNameTheLastPair(t: seq<Input>, pools: seq<Pool<Arrival>>, ids: map<nat, string>,
      traces: seq<map<nat, Trace>>, e: nat, n: nat)
    requires IsTraced(t, pools, ids, traces) && n <= |t| && e in ids
    ensures e in traces[0] && e in traces[n]
    ensures forall k: nat | k < n && IsLastPair(t, pools, e, k, n) :: traces[n][e].corr == PairId(t, pools, ids, k)
    ensures forall k: nat | k < n && IsLastAnswer(t, pools, e, k, n) :: traces[n][e].causation == PairId(t, pools, ids, k)
    ensures (forall k: nat | k < n :: !Touches(t, pools, k, e)) ==> traces[n][e] == traces[0][e]
    ensures (forall k: nat | k < n :: !Answers(t, pools, k, e)) ==> traces[n][e].causation == traces[0][e].causation
  {
    UnpairedStays(t, pools, ids, traces, e, n);
    forall k: nat | k < n && IsLastPair(t, pools, e, k, n)
      ensures traces[n][e].corr == PairId(t, pools, ids, k)
    {
      LastPairDecides(t, pools, ids, traces, e, n, k);
    }
    forall k: nat | k < n && IsLastAnswer(t, pools, e, k, n)
      ensures traces[n][e].causation == PairId(t, pools, ids, k)
    {
      LastAnswerDecides(t, pools, ids, traces, e, n, k);
    }
  }

  /** All pairs with e among the first n hits write the same id. */
  ghost predicate OneId(t: seq<Input>, pools: seq<Pool<Arrival>>, ids: map<nat, string>, e: nat, n: nat)
    requires n <= |t| < |pools|
  {
    forall j: nat, k: nat | j < n && k < n && Touches(t, pools, j, e) && Touches(t, pools, k, e) ::
      PairId(t, pools, ids, j) == PairId(t, pools, ids, k)
  }

  /** No pair with e among the first n hits writes this key. */
  ghost predicate NoId(t: seq<Input>, pools: seq<Pool<Arrival>>, ids: map<nat, string>, e: nat, n: nat, key: string)
    requires n <= |t| < |pools|
  {
    forall k: nat | k < n && Touches(t, pools, k, e) :: PairId(t, pools, ids, k) != key
  }

  ghost predicate IsPaired(t: seq<Input>, pools: seq<Pool<Arrival>>, e: nat, n: nat)
    requires n <= |t| < |pools|
  {
    exists k: nat :: k < n && Touches(t, pools, k, e)
  }

  predicate Survives(u: Trace, key: string) {
    u.corr == key || u.corrKey == Some(key)
  }

  /** What is known of an event's key and correlation after the first n hits. */
  ghost predicate KeyKnown(t: seq<Input>, pools: seq<Pool<Arrival>>, ids: map<nat, string>, e: nat, n: nat, key: string, u: Trace)
    requires n <= |t| < |pools|
  {
    if IsPaired(t, pools, e, n) then
      && u.corr != "" && u.corr != key
      && (OneId(t, pools, ids, e, n) <==> u.corrKey == Some(key))
      && exists k: nat :: k < n && Touches(t, pools, k, e) && u.corr == PairId(t, pools, ids, k)
    else
      u.corr == key
  }

  /** A pair of e adds its id to those before it. */
  lemma {:induction false} OneMoreId(t: seq<Input>, pools: seq<Pool<Arrival>>, ids: map<nat, string>, e: nat, n: nat, k: nat)
    requires k <= n < |t| < |pools| && Touches(t, pools, n, e) && Touches(t, pools, k, e)
    requires k < n || !IsPaired(t, pools, e, n)
    ensures OneId(t, pools, ids, e, n + 1)
            <==> OneId(t, pools, ids, e, n) && PairId(t, pools, ids, n) == PairId(t, pools, ids, k)
  {
  }

  lemma {:induction false} KeyStep(t: seq<Input>, pools: seq<Pool<Arrival>>, ids: map<nat, string>,
      traces: seq<map<nat, Trace>>, e: nat, n: nat, key: string)
    requires IsTraced(t, pools, ids, traces) && n < |t| && e in ids && key != "" && e in traces[n]
    requires NoId(t, pools, ids, e, n + 1, key) && KeyKnown(t, pools, ids, e, n, key, traces[n][e])
    ensures e in traces[n + 1] && KeyKnown(t, pools, ids, e, n + 1, key, traces[n + 1][e])
  {
    var u := traces[n][e];
    TraceStep(t, pools, ids, traces, n, e);
    if !Touches(t, pools, n, e) {
      KeyUntouched(t, pools, ids, e, n, key, u);
    } else if IsPaired(t, pools, e, n) {
      var k: nat :| k < n && Touches(t, pools, k, e) && u.corr == PairId(t, pools, ids, k);
      OneMoreId(t, pools, ids, e, n, k);
    } else {
      OneMoreId(t, pools, ids, e, n, n);
    }
  }

  lemma {:induction false} KeyUntouched(t: seq<Input>, pools: seq<Pool<Arrival>>, ids: map<nat, string>,
      e: nat, n: nat, key: string, u: Trace)
    requires n < |t| < |pools| && !Touches(t, pools, n, e) && KeyKnown(t, pools, ids, e, n, key, u)
    ensures KeyKnown(t, pools, ids, e, n + 1, key, u)
  {
    assert OneId(t, pools, ids, e, n + 1) <==> OneId(t, pools, ids, e, n);
  }

  lemma {:induction false} KeyIsKnown(t: seq<Input>, pools: seq<Pool<Arrival>>, ids: map<nat, string>,
      traces: seq<map<nat, Trace>>, e: nat, n: nat, key: string)
    requires IsTraced(t, pools, ids, traces) && n <= |t| && e in ids
    requires key == traces[0][e].corr != "" && NoId(t, pools, ids, e, n, key)
    ensures e in traces[n] && KeyKnown(t, pools, ids, e, n, key, traces[n][e])
  {
    if n > 0 {
      KeyIsKnown(t, pools, ids, traces, e, n - 1, key);
      KeyStep(t, pools, ids, traces, e, n - 1, key);
    }
  }

  lemma {:induction false} OneIdKeepsKey(t: seq<Input>, pools: seq<Pool<Arrival>>, ids: map<nat, string>,
      traces: seq<map<nat, Trace>>, e: nat, n: nat)
    requires IsTraced(t, pools, ids, traces) && n <= |t| && e in ids && traces[0][e].corr != ""
    requires OneId(t, pools, ids, e, n)
    ensures e in traces[n] && Survives(traces[n][e], traces[0][e].corr)
    ensures forall k: nat | k < n && Touches(t, pools, k, e) :: traces[n][e].corr == PairId(t, pools, ids, k)
    ensures !IsPaired(t, pools, e, n) ==> traces[n][e].corr == traces[0][e].corr
  {
    if n > 0 {
      OneIdKeepsKey(t, pools, ids, traces, e, n - 1);
      TraceStep(t, pools, ids, traces, n - 1, e);
    }
  }

  /**
   * The correlation key that the plugin declared for an event is still found on it, as its
   * correlation or kept aside, if no two pairs of the event write different ids, in particular
   * after at most one pair. Unless that key is itself such an id, it is found only then.
   */
  lemma {:induction false} KeySurvivesIff(t: seq<Input>, pools: seq<Pool<Arrival>>, ids: map<nat, string>,
      traces: seq<map<nat, Trace>>, e: nat, n: nat)
    requires IsTraced(t, pools, ids, traces) && n <= |t| && e in ids && traces[0][e].corr != ""
    ensures e in traces[n]
    ensures OneId(t, pools, ids, e, n) ==> Survives(traces[n][e], traces[0][e].corr)
    ensures NoId(t, pools, ids, e, n, traces[0][e].corr) ==>
              (Survives(traces[n][e], traces[0][e].corr) <==> OneId(t, pools, ids, e, n))
  {
    TracesStay(t, pools, ids, traces, n);
    if OneId(t, pools, ids, e, n) {
      OneIdKeepsKey(t, pools, ids, traces, e, n);
    }
    if NoId(t, pools, ids, e, n, traces[0][e].corr) {
      KeyIsKnown(t, pools, ids, traces, e, n, traces[0][e].corr);
    }
  }

  /**
   * Nothing keeps two hits of one event apart: an event can be paired with itself. It then is
   * its own cause, and it is so only then.
   */
  lemma {:induction false} OwnCauseIff(t: seq<Input>, pools: seq<Pool<Arrival>>, ids: map<nat, string>,
      traces: seq<map<nat, Trace>>, e: nat, n: nat, k: nat)
    requires IsTraced(t, pools, ids, traces) && n <= |t| && e in ids
    requires forall a, b | a in ids && b in ids && ids[a] == ids[b] :: a == b
    requires k < n && IsLastAnswer(t, pools, e, k, n)
    ensures e in traces[n]
    ensures var m := Partner(t, pools, k).value;
            m < k && (traces[n][e].causation == ids[e] <==> t[k].event == e && t[m].event == e)
  {
    TracesNameTheLastPair(t, pools, ids, traces, e, n);
    RolesFollowSides(t, pools, k);
  }

  /** Two hits in a row that match are a pair, also when they belong to one event. */
  lemma {:induction false} NeighboursPair(t: seq<Input>, pools: seq<Pool<Arrival>>, n: nat)
    requires IsRun(t, pools) && n + 1 < |t| && t[n].conn == t[n + 1].conn && MatchPair(t[n].hit, t[n + 1].hit)
    requires Partner(t, pools, n) == None && !EvictedBy(t, pools, n, t[n].Key())
    ensures Partner(t, pools, n + 1) == Some(n)
  {
    assert Waits(t, pools, n, n + 1);
    PairedIff(t, pools, n, n + 1);
  }

  /** The pool never holds more than 4096 hits, at any moment of any run. */
  lemma {:induction false} PoolIsBounded(t: seq<Input>, pools: seq<Pool<Arrival>>, n: nat)
    requires IsRun(t, pools) && n <= |t|
    ensures |pools[n].pending| <= MAX_PENDING
  {
    if n > 0 {
      PoolIsBounded(t, pools, n - 1);
      StepKeepsBound(pools[n - 1], n - 1, t[n - 1], pools[n]);
    }
  }

  lemma {:induction false} StepKeepsBound(p: Pool<Arrival>, n: nat, i: Input, q: Pool<Arrival>)
    requires |p.pending| <= MAX_PENDING && Steps(p, n, i, q)
    ensures |q.pending| <= MAX_PENDING
  {
    HitKeepsBound(p, Arrival(n, i.event), i.conn, i.hit, i.now);
  }

  // ---- the engine ---------------------------------------------------------------------

  class Event {
    const id: string
    const conn: string
    var corr: string
    var causation: string
    var corrKey: Option<string>

    constructor (id: string, conn: string, corr: string)
      ensures this.id == id && this.conn == conn && Value() == Trace(corr, "", None)
    {
      this.id, this.conn, this.corr, causation, corrKey := id, conn, corr, "", None;
    }

    function Value(): Trace
      reads this
    {
      Trace(corr, causation, corrKey)
    }

    method PreserveCorrelationKey(pairKey: string)
      modifies this`corrKey
      ensures Value() == Preserved(old(Value()), pairKey)
    {
      if corr == "" || corr == pairKey {
        return;
      }
      corrKey := Some(corr);
    }
  }

  class Engine {
    var pending: map<string, Pending<Event>>
    var inserts: nat

    function Value(): Pool<Event>
      reads this
    {
      Pool(pending, inserts)
    }

    constructor ()
      ensures Value() == Pool(map[], 0)
    {
      pending, inserts := map[], 0;
    }

    /** The counterpart a hit finds, or the event itself when there is none. */
    ghost function Counterpart(ev: Event, h: Hit): Event
      reads this
    {
      if Matches(Value(), ev.conn, h) then pending[MapKey(ev.conn, h)].evt else ev
    }

    /** The events that wait, whose traces a pair may still write. */
    ghost function Waiting(): set<Event>
      reads this
    {
      EventsOf(Value())
    }

    method ApplyPairs(ev: Event, hits: seq<Hit>, now: int)
      modifies this, ev, Waiting()
      ensures Value() == AfterAll(old(Value()), ev, ev.conn, hits, now)
      ensures Waiting() <= old(Waiting()) + {ev}
    {
      var i := 0;
      while i < |hits|
        invariant 0 <= i <= |hits|
        invariant AfterAll(old(Value()), ev, ev.conn, hits, now) == AfterAll(Value(), ev, ev.conn, hits[i..], now)
        invariant Waiting() <= old(Waiting()) + {ev}
      {
        assert hits[i..][0] == hits[i] && hits[i..][1..] == hits[i + 1..];
        WaitingAfter(Value(), ev, ev.conn, hits[i], now);
        ApplyHit(ev, hits[i], now);
        i := i + 1;
      }
    }

    /** One hit: pairs the event with its counterpart, or makes it wait. */
    method ApplyHit(ev: Event, h: Hit, now: int)
      modifies this, ev, Counterpart(ev, h)
      ensures Value() == After(old(Value()), ev, ev.conn, h, now)
      ensures !old(Matches(Value(), ev.conn, h)) ==> ev.Value() == old(ev.Value())
      ensures old(Matches(Value(), ev.conn, h)) ==>
                var prev := old(pending[MapKey(ev.conn, h)].evt);
                var req, resp := if h.side == RequestSide then ev else prev, if h.side == RequestSide then prev else ev;
                var joined := Joined(map[req := old(req.Value()), resp := old(resp.Value())], req, resp, req.id);
                req.Value() == joined[req] && resp.Value() == joined[resp]
    {
      var k := MapKey(ev.conn, h);
      if k in pending && pending[k].conn == ev.conn && MatchPair(pending[k].hit, h) {
        var prev := pending[k].evt;
        pending := pending - {k};
        var req, resp;
        if h.side == RequestSide {
          req, resp := ev, prev;
        } else {
          req, resp := prev, ev;
        }
        Join(req, resp);
        return;
      }
      Wait(ev, h, now);
    }

    method Wait(ev: Event, h: Hit, now: int)
      modifies this
      ensures Value() == Inserted(old(Value()), ev, ev.conn, h, now)
    {
      var k := MapKey(ev.conn, h);
      if |pending| >= MAX_PENDING {
        Evict(now);
      }
      pending := pending[k := Pending(h, ev, ev.conn, now)];
      inserts := inserts + 1;
      if inserts % EVICT_EVERY == 0 {
        Evict(now);
      }
    }

    method Join(req: Event, resp: Event)
      modifies req, resp
      ensures var joined := Joined(map[req := old(req.Value()), resp := old(resp.Value())], req, resp, req.id);
              req.Value() == joined[req] && resp.Value() == joined[resp]
    {
      req.PreserveCorrelationKey(req.id);
      resp.PreserveCorrelationKey(req.id);
      req.corr := req.id;
      resp.corr := req.id;
      resp.causation := req.id;
    }

    method Evict(now: int)
      modifies this`pending
      ensures pending == EvictExpired(old(pending), now)
    {
      var keys := pending.Keys;
      var kept := pending;
      while keys != {}
        invariant keys <= pending.Keys && pending == old(pending)
        invariant kept == map k | k in pending && (k in keys || now - pending[k].at <= PENDING_TTL) :: pending[k]
        decreases |keys|
      {
        var k :| k in keys;
        keys := keys - {k};
        if now - pending[k].at > PENDING_TTL {
          kept := kept - {k};
        }
      }
      assert kept == Unexpired(old(pending), now);
      pending := if |kept| >= MAX_PENDING then map[] else kept;
    }
  }

  /** The events of a pool. */
  ghost function EventsOf(p: Pool<Event>): set<Event> {
    set k | k in p.pending :: p.pending[k].evt
  }

  lemma {:induction false} WaitingAfter(p: Pool<Event>, ev: Event, conn: string, h: Hit, now: int)
    ensures EventsOf(After(p, ev, conn, h, now)) <= EventsOf(p) + {ev}
    ensures Matches(p, conn, h) ==> p.pending[MapKey(conn, h)].evt in EventsOf(p)
  {
  }
}
