/**
 * cmd/gt-mcp/protocol_catalog.go, build: paired responses, the order of the protocols, the
 * pages of a catalog, and the nearest-rank percentile.
 */
module CatalogBuild {
  import opened Seqs
  import opened ProtocolCatalog

  // ---- paired responses ---------------------------------------------------------------

  datatype Pair = Pair(count: nat, requests: set<string>, latency: seq<int>)

  /** Pairs by request key and response key. */
  type Pairs = map<(string, string), Pair>

  function PairAt(pairs: Pairs, k: (string, string)): Pair {
    if k in pairs then pairs[k] else Pair(0, {}, [])
  }

  /** The entry for one reference, if its cause is a named event. */
  function Resolved(pairs: Pairs, byId: map<string, Request>, r: Reference): Pairs {
    if r.cause !in byId || byId[r.cause].msgName == "" then pairs
    else
      var req := byId[r.cause];
      var k := (Key(req.dir, req.msgName), r.key);
      var p := PairAt(pairs, k);
      pairs[k := Pair(p.count + 1, p.requests + {r.cause},
                      p.latency + if r.ts >= req.ts then [(r.ts - req.ts) / 1000000] else [])]
  }

  function ResolvedAll(pairs: Pairs, byId: map<string, Request>, refs: seq<Reference>): Pairs {
    if refs == [] then pairs else Resolved(ResolvedAll(pairs, byId, Front(refs)), byId, Last(refs))
  }

  /** A response and the request that caused it. */
  datatype Pairing = Pairing(request: Event, response: Event)

  function FindById(events: seq<Event>, id: string): Option<Event> {
    if events == [] then None
    else if Last(events).id == id then Some(Last(events))
    else FindById(Front(events), id)
  }

  /** Named and caused by a named event among `all`. */
  predicate IsPaired(e: Event, all: seq<Event>) {
    e.msgName != "" && e.cause != "" && FindById(all, e.cause).Some? && FindById(all, e.cause).value.msgName != ""
  }

  function PairingsOf(events: seq<Event>, all: seq<Event>): seq<Pairing> {
    if events == [] then []
    else if IsPaired(Last(events), all) then
      PairingsOf(Front(events), all) + [Pairing(FindById(all, Last(events).cause).value, Last(events))]
    else PairingsOf(Front(events), all)
  }

  function PairKey(p: Pairing): (string, string) {
    (KeyOf(p.request), KeyOf(p.response))
  }

  function OfPair(pairings: seq<Pairing>, k: (string, string)): seq<Pairing> {
    if pairings == [] then []
    else if PairKey(Last(pairings)) == k then OfPair(Front(pairings), k) + [Last(pairings)]
    else OfPair(Front(pairings), k)
  }

  /** The latencies that are not negative, in whole milliseconds. */
  function Latencies(pairings: seq<Pairing>): seq<int> {
    if pairings == [] then []
    else
      var p := Last(pairings);
      Latencies(Front(pairings)) +
      if p.response.ts >= p.request.ts then [(p.response.ts - p.request.ts) / 1000000] else []
  }

  /** What a pair's entry is meant to say. */
  predicate PairDescribes(p: Pair, pairings: seq<Pairing>) {
    && p.count == |pairings|
    && p.requests == (set q | q in pairings :: q.response.cause)
    && p.latency == Latencies(pairings)
  }

  /** The references collected are those of the named events with a cause, in order. */
  function RefsOf(events: seq<Event>): seq<Reference> {
    if events == [] then []
    else if Last(events).msgName != "" && Last(events).cause != "" then
      RefsOf(Front(events)) + [Reference(Last(events).cause, Last(events).ts, KeyOf(Last(events)))]
    else RefsOf(Front(events))
  }

  predicate IndexMatches(byId: map<string, Request>, events: seq<Event>, id: string) {
    match FindById(events, id)
    case None => id !in byId
    case Some(e) => id in byId && byId[id] == Request(e.dir, e.msgName, e.ts)
  }

  lemma {:induction false} IndexMore(s: State, observed: seq<Event>, e: Event, direction: string, id: string)
    requires s.refs == RefsOf(observed) && IndexMatches(s.byId, observed, id) && Passes(e, direction)
    ensures var t := Added(s, e, direction);
            t.refs == RefsOf(observed + [e]) && IndexMatches(t.byId, observed + [e], id)
  {
    assert Front(observed + [e]) == observed;
  }

  lemma {:induction false} IndexIsExact(events: seq<Event>, direction: string, id: string)
    ensures var s, observed := AddedAll(events, direction), Observed(events, direction);
            s.refs == RefsOf(observed) && IndexMatches(s.byId, observed, id)
  {
    if events != [] {
      IndexIsExact(Front(events), direction, id);
      if Passes(Last(events), direction) {
        IndexMore(AddedAll(Front(events), direction), Observed(Front(events), direction), Last(events), direction, id);
      }
    }
  }

  lemma {:induction false} ResolvesPairings(events: seq<Event>, all: seq<Event>, byId: map<string, Request>, k: (string, string))
    requires forall id :: IndexMatches(byId, all, id)
    ensures PairDescribes(PairAt(ResolvedAll(map[], byId, RefsOf(events)), k), OfPair(PairingsOf(events, all), k))
  {
    if events != [] {
      var e := Last(events);
      ResolvesPairings(Front(events), all, byId, k);
      if e.msgName != "" && e.cause != "" {
        ResolvesOne(ResolvedAll(map[], byId, RefsOf(Front(events))), events, all, byId, k);
        var refs, r := RefsOf(Front(events)), Reference(e.cause, e.ts, KeyOf(e));
        assert Front(refs + [r]) == refs;
      }
    }
  }

  lemma {:induction false} ResolvesOne(pairs: Pairs, events: seq<Event>, all: seq<Event>, byId: map<string, Request>, k: (string, string))
    requires events != [] && Last(events).msgName != "" && Last(events).cause != ""
    requires IndexMatches(byId, all, Last(events).cause)
    requires PairDescribes(PairAt(pairs, k), OfPair(PairingsOf(Front(events), all), k))
    ensures var e := Last(events);
            PairDescribes(PairAt(Resolved(pairs, byId, Reference(e.cause, e.ts, KeyOf(e))), k), OfPair(PairingsOf(events, all), k))
  {
    var e, before := Last(events), PairingsOf(Front(events), all);
    if IsPaired(e, all) {
      var p := Pairing(FindById(all, e.cause).value, e);
      assert Front(before + [p]) == before;
      if PairKey(p) == k {
        DescribesOneMore(PairAt(pairs, k), OfPair(before, k), p);
      }
    }
  }

  lemma {:induction false} DescribesOneMore(p: Pair, pairings: seq<Pairing>, q: Pairing)
    requires PairDescribes(p, pairings)
    ensures var late := q.response.ts >= q.request.ts;
            PairDescribes(Pair(p.count + 1, p.requests + {q.response.cause},
                               p.latency + if late then [(q.response.ts - q.request.ts) / 1000000] else []),
                          pairings + [q])
  {
    assert Front(pairings + [q]) == pairings;
    assert forall x :: x in pairings + [q] <==> x in pairings || x == q;
  }

  /**
   * Resolving the pairs once after the pass gives, for every pair of protocols, the number of
   * responses, the requests they answer and the latencies, of exactly those events whose
   * cause is a named event that was observed.
   */
  lemma PairsAreExact(events: seq<Event>, direction: string, k: (string, string))
    ensures var s, observed := AddedAll(events, direction), Observed(events, direction);
            PairDescribes(PairAt(ResolvedAll(map[], s.byId, s.refs), k), OfPair(PairingsOf(observed, observed), k))
  {
    var s, observed := AddedAll(events, direction), Observed(events, direction);
    forall id
      ensures IndexMatches(s.byId, observed, id)
    {
      IndexIsExact(events, direction, id);
    }
    IndexIsExact(events, direction, "");
    ResolvesPairings(observed, observed, s.byId, k);
  }

  function PairKeys(pairings: seq<Pairing>): multiset<(string, string)> {
    if pairings == [] then multiset{} else PairKeys(Front(pairings)) + multiset{PairKey(Last(pairings))}
  }

  lemma {:induction false} PairMultiplicity(pairings: seq<Pairing>, k: (string, string))
    ensures |PairKeys(pairings)| == |pairings| && PairKeys(pairings)[k] == |OfPair(pairings, k)|
  {
    if pairings != [] {
      PairMultiplicity(Front(pairings), k);
    }
  }

  function Paired(all: seq<Event>): Event -> bool {
    (e: Event) => IsPaired(e, all)
  }

  lemma {:induction false} PairingsCount(events: seq<Event>, all: seq<Event>)
    ensures |PairingsOf(events, all)| == CountIf(events, Paired(all))
  {
    if events != [] {
      PairingsCount(Front(events), all);
    }
  }

  /** Pair counts add up to the named events whose cause is a named observed event. */
  lemma PairCountsAddUp(events: seq<Event>, direction: string)
    ensures var s, observed := AddedAll(events, direction), Observed(events, direction);
            var keys := PairKeys(PairingsOf(observed, observed));
            && |keys| == CountIf(observed, Paired(observed))
            && forall k :: keys[k] == PairAt(ResolvedAll(map[], s.byId, s.refs), k).count
  {
    var s, observed := AddedAll(events, direction), Observed(events, direction);
    var pairings := PairingsOf(observed, observed);
    PairingsCount(observed, observed);
    PairMultiplicity(pairings, ("", ""));
    forall k
      ensures PairKeys(pairings)[k] == PairAt(ResolvedAll(map[], s.byId, s.refs), k).count
    {
      PairMultiplicity(pairings, k);
      PairsAreExact(events, direction, k);
    }
  }

  // ---- order and pages ----------------------------------------------------------------

  predicate Less(a: string, b: string) {
    b != [] && (a == [] || a[0] < b[0] || (a[0] == b[0] && Less(a[1..], b[1..])))
  }

  lemma {:induction false} LessIsTotal(a: string, b: string)
    ensures Less(a, b) || Less(b, a) || a == b
    ensures !(Less(a, b) && Less(b, a)) && !Less(a, a)
  {
    if a != [] && b != [] {
      LessIsTotal(a[1..], b[1..]);
      assert a == [a[0]] + a[1..] && b == [b[0]] + b[1..];
    }
    if a != [] {
      LessIsTotal(a[1..], a[1..]);
    }
  }

  lemma {:induction false} LessIsTransitive(a: string, b: string, c: string)
    requires Less(a, b) && Less(b, c)
    ensures Less(a, c)
  {
    if a != [] && a[0] == b[0] == c[0] {
      LessIsTransitive(a[1..], b[1..], c[1..]);
    }
  }

  /** The lexicographic order: decided where the strings differ first, a prefix comes first. */
  lemma {:induction false} LessIff(a: string, b: string)
    ensures Less(a, b) <==> exists k :: 0 <= k < |b| && k <= |a| && a[..k] == b[..k] && (k == |a| || a[k] < b[k])
  {
    if b == [] {
    } else if a == [] {
      assert a[..0] == b[..0];
    } else if a[0] != b[0] {
      assert a[..0] == b[..0];
      forall k | 0 < k < |b| && k <= |a|
        ensures a[..k] != b[..k]
      {
        assert a[..k][0] != b[..k][0];
      }
    } else {
      LessIff(a[1..], b[1..]);
      if k :| 0 <= k < |b[1..]| && k <= |a[1..]| && a[1..][..k] == b[1..][..k] && (k == |a[1..]| || a[1..][k] < b[1..][k]) {
        assert a[..k + 1] == [a[0]] + a[1..][..k] && b[..k + 1] == [b[0]] + b[1..][..k];
      }
      if k :| 0 <= k < |b| && k <= |a| && a[..k] == b[..k] && (k == |a| || a[k] < b[k]) {
        assert a[1..][..k - 1] == a[..k][1..] && b[1..][..k - 1] == b[..k][1..];
      }
    }
  }

  /** First seen, then direction, then name. */
  predicate Before(p: Protocol, q: Protocol) {
    p.first < q.first ||
    (p.first == q.first && (Less(p.dir, q.dir) || (p.dir == q.dir && Less(p.msgName, q.msgName))))
  }

  lemma BeforeIsTotal(p: Protocol, q: Protocol)
    ensures Before(p, q) || Before(q, p) || (p.dir == q.dir && p.msgName == q.msgName)
    ensures !(Before(p, q) && Before(q, p)) && !Before(p, p)
  {
    LessIsTotal(p.dir, q.dir);
    LessIsTotal(p.msgName, q.msgName);
    LessIsTotal(p.dir, p.dir);
    LessIsTotal(p.msgName, p.msgName);
  }

  lemma BeforeIsTransitive(p: Protocol, q: Protocol, r: Protocol)
    requires Before(p, q) && Before(q, r)
    ensures Before(p, r)
  {
    if Less(p.dir, q.dir) && Less(q.dir, r.dir) {
      LessIsTransitive(p.dir, q.dir, r.dir);
    }
    if Less(p.msgName, q.msgName) && Less(q.msgName, r.msgName) {
      LessIsTransitive(p.msgName, q.msgName, r.msgName);
    }
  }

  /** What sorting the keys gives: every protocol once, in order. */
  ghost predicate IsListing(protocols: map<string, Protocol>, keys: seq<string>) {
    && (forall key :: key in keys <==> key in protocols)
    && (forall i, j | 0 <= i < j < |keys| :: Before(protocols[keys[i]], protocols[keys[j]]))
  }

  /** There is only one such order, so pages asked for at different times belong together. */
  lemma {:induction false} ListingIsUnique(protocols: map<string, Protocol>, a: seq<string>, b: seq<string>)
    requires IsListing(protocols, a) && IsListing(protocols, b)
    ensures a == b
    decreases |a|
  {
    if a == [] {
      if b != [] {
        SameLast(protocols, b, a);
      }
    } else {
      var x := Last(a);
      SameLast(protocols, a, b);
      ListingFront(protocols, a);
      ListingFront(protocols, b);
      ListingIsUnique(protocols - {x}, Front(a), Front(b));
      assert a == Front(a) + [x] && b == Front(b) + [x];
    }
  }

  lemma {:induction false} SameLast(protocols: map<string, Protocol>, a: seq<string>, b: seq<string>)
    requires IsListing(protocols, a) && IsListing(protocols, b) && a != []
    ensures b != [] && Last(b) == Last(a)
  {
    var x := Last(a);
    assert x in a && x in b;
    var y := Last(b);
    assert y in b && y in a;
    if x != y {
      assert Before(protocols[x], protocols[y]) && Before(protocols[y], protocols[x]);
      BeforeIsTotal(protocols[x], protocols[y]);
      assert false;
    }
  }

  lemma {:induction false} ListingFront(protocols: map<string, Protocol>, a: seq<string>)
    requires IsListing(protocols, a) && a != []
    ensures IsListing(protocols - {Last(a)}, Front(a))
  {
    var x := Last(a);
    forall i | 0 <= i < |a| - 1
      ensures a[i] != x
    {
      BeforeIsTotal(protocols[a[i]], protocols[x]);
    }
    assert a == Front(a) + [x];
  }

  function Min(a: nat, b: nat): nat {
    if a < b then a else b
  }

  /** One page, and whether there is more. */
  function CatalogPage(keys: seq<string>, limit: nat, offset: nat): (seq<string>, bool) {
    var start := Min(offset, |keys|);
    var page := keys[start..Min(start + limit, |keys|)];
    (page, offset + |page| < |keys|)
  }

  /** A page is full unless the listing ends, starts at the offset, and says whether anything follows it. */
  lemma PageIsFull(keys: seq<string>, limit: nat, offset: nat)
    ensures var (page, more) := CatalogPage(keys, limit, offset);
            && |page| == Min(limit, if offset < |keys| then |keys| - offset else 0)
            && (forall i | 0 <= i < |page| :: page[i] == keys[offset + i])
            && (more <==> offset + limit < |keys|)
  {
  }

  /** In a listing the protocol seen first comes first; at the same time, the smaller direction, then name. */
  lemma ListingIsInOrder(protocols: map<string, Protocol>, keys: seq<string>, i: nat, j: nat)
    requires IsListing(protocols, keys) && i < j < |keys|
    ensures keys[i] in protocols && keys[j] in protocols
    ensures var p, q := protocols[keys[i]], protocols[keys[j]];
            && p.first <= q.first
            && (p.first == q.first ==> p.dir == q.dir || Less(p.dir, q.dir))
            && (p.first == q.first && p.dir == q.dir ==> Less(p.msgName, q.msgName))
  {
    assert keys[i] in keys && keys[j] in keys;
    assert Before(protocols[keys[i]], protocols[keys[j]]);
    LessIsTotal(protocols[keys[i]].dir, protocols[keys[i]].dir);
  }

  /** Asking for the next page as long as there is more. */
  function AllPages(keys: seq<string>, limit: nat, offset: nat): seq<string>
    requires limit > 0
    decreases |keys| - offset
  {
    var (page, more) := CatalogPage(keys, limit, offset);
    if more then page + AllPages(keys, limit, offset + |page|) else page
  }

  lemma {:induction false} RestOfPages(keys: seq<string>, limit: nat, offset: nat)
    requires limit > 0 && offset <= |keys|
    ensures AllPages(keys, limit, offset) == keys[offset..]
    decreases |keys| - offset
  {
    var (page, more) := CatalogPage(keys, limit, offset);
    if more {
      RestOfPages(keys, limit, offset + |page|);
      assert keys[offset..] == page + keys[offset + |page|..];
    }
  }

  /** A key is made of its protocol's direction and name, so no two protocols tie. */
  predicate Keyed(protocols: map<string, Protocol>) {
    forall key | key in protocols :: key == Key(protocols[key].dir, protocols[key].msgName)
  }

  lemma {:induction false} TableIsKeyed(events: seq<Event>, direction: string)
    ensures Keyed(AddedAll(events, direction).protocols)
  {
    if events != [] {
      TableIsKeyed(Front(events), direction);
    }
  }

  function Inserted(protocols: map<string, Protocol>, keys: seq<string>, x: string): (r: seq<string>)
    requires x in protocols && forall key | key in keys :: key in protocols
    ensures forall key :: key in r <==> key in keys || key == x
  {
    if keys == [] then [x]
    else if Before(protocols[x], protocols[keys[0]]) then [x] + keys
    else [keys[0]] + Inserted(protocols, keys[1..], x)
  }

  ghost predicate Ordered(protocols: map<string, Protocol>, keys: seq<string>) {
    && (forall key | key in keys :: key in protocols)
    && forall i, j | 0 <= i < j < |keys| :: Before(protocols[keys[i]], protocols[keys[j]])
  }

  /** A protocol goes to the front of those it comes before. */
  lemma {:induction false} InFront(protocols: map<string, Protocol>, keys: seq<string>, x: string)
    requires Ordered(protocols, keys) && x in protocols
    requires forall key | key in keys :: key in protocols && Before(protocols[x], protocols[key])
    ensures Ordered(protocols, [x] + keys)
  {
    var all := [x] + keys;
    forall i, j | 0 <= i < j < |all|
      ensures all[i] in protocols && all[j] in protocols && Before(protocols[all[i]], protocols[all[j]])
    {
      assert all[j] == keys[j - 1];
      if i > 0 {
        assert all[i] == keys[i - 1];
      }
    }
  }

  lemma {:induction false} InsertedInOrder(protocols: map<string, Protocol>, keys: seq<string>, x: string)
    requires Keyed(protocols) && Ordered(protocols, keys) && x in protocols && x !in keys
    ensures Ordered(protocols, Inserted(protocols, keys, x))
  {
    if keys == [] {
    } else if Before(protocols[x], protocols[keys[0]]) {
      forall key | key in keys
        ensures Before(protocols[x], protocols[key])
      {
        if key != keys[0] {
          BeforeIsTransitive(protocols[x], protocols[keys[0]], protocols[key]);
        }
      }
      InFront(protocols, keys, x);
    } else {
      BeforeIsTotal(protocols[x], protocols[keys[0]]);
      var rest := Inserted(protocols, keys[1..], x);
      InsertedInOrder(protocols, keys[1..], x);
      forall key | key in rest
        ensures Before(protocols[keys[0]], protocols[key])
      {
        assert key == x || key in keys[1..];
      }
      InFront(protocols, rest, keys[0]);
    }
  }

  /** There always is such an order. */
  lemma {:induction false} Sorts(protocols: map<string, Protocol>) returns (keys: seq<string>)
    requires Keyed(protocols)
    ensures IsListing(protocols, keys)
    decreases |protocols.Keys|
  {
    keys := [];
    if protocols.Keys != {} {
      var x :| x in protocols;
      var rest := protocols - {x};
      assert rest.Keys == protocols.Keys - {x};
      var others := Sorts(rest);
      assert Ordered(protocols, others);
      InsertedInOrder(protocols, others, x);
      keys := Inserted(protocols, others, x);
    }
  }

  /**
   * For every session: the protocols that one pass finds have one order, and successive pages
   * list every protocol exactly once, in that order.
   */
  lemma {:induction false} PagesListEveryProtocol(events: seq<Event>, direction: string, limit: nat) returns (keys: seq<string>)
    requires limit > 0
    ensures var protocols := AddedAll(events, direction).protocols;
            && IsListing(protocols, keys)
            && (forall other | IsListing(protocols, other) :: other == keys)
            && AllPages(keys, limit, 0) == keys
  {
    var protocols := AddedAll(events, direction).protocols;
    TableIsKeyed(events, direction);
    keys := Sorts(protocols);
    forall other | IsListing(protocols, other)
      ensures other == keys
    {
      ListingIsUnique(protocols, other, keys);
    }
    RestOfPages(keys, limit, 0);
  }

  // ---- percentile ---------------------------------------------------------------------

  function Ceil(x: real): int {
    -((-x).Floor)
  }

  /** catalogPercentile, on exact arithmetic. */
  function Percentile(sorted: seq<int>, p: real): int {
    if sorted == [] then 0
    else
      var idx := Ceil(p * |sorted| as real) - 1;
      sorted[if idx < 0 then 0 else if idx >= |sorted| then |sorted| - 1 else idx]
  }

  function CountBelow(s: seq<int>, v: int): nat {
    if s == [] then 0 else CountBelow(Front(s), v) + if Last(s) < v then 1 else 0
  }

  lemma {:induction false} CountBelowBounds(s: seq<int>, v: int, n: nat)
    requires n <= |s|
    ensures (forall i | 0 <= i < n :: s[i] < v) ==> CountBelow(s, v) >= n
    ensures (forall i | n <= i < |s| :: s[i] >= v) ==> CountBelow(s, v) <= n
  {
    if s != [] {
      CountBelowBounds(Front(s), v, if n < |s| then n else n - 1);
      assert forall i | 0 <= i < |s| - 1 :: Front(s)[i] == s[i];
    }
  }

  /**
   * The percentile is a nearest rank: at least that share of the values is at most it, and
   * less than that share is below it.
   */
  lemma PercentileIsNearestRank(sorted: seq<int>, p: real)
    requires sorted != [] && 0.0 < p <= 1.0
    requires forall i, j | 0 <= i < j < |sorted| :: sorted[i] <= sorted[j]
    ensures var v := Percentile(sorted, p);
            && v in sorted
            && CountBelow(sorted, v + 1) as real >= p * |sorted| as real
            && (CountBelow(sorted, v) as real) < p * |sorted| as real
  {
    var x := p * |sorted| as real;
    assert 0.0 < x <= |sorted| as real;
    var idx := Ceil(x) - 1;
    assert 0 <= idx < |sorted|;
    CountBelowBounds(sorted, sorted[idx] + 1, idx + 1);
    CountBelowBounds(sorted, sorted[idx], idx);
  }
}
