/**
 * cmd/gt-mcp/protocol_catalog.go: one pass over a session's events, oldest first, gives
 * statistics for each protocol (a direction and a message name). They are compared here
 * with what the statistics are meant to say about the events.
 */
module ProtocolCatalog {
  import opened Seqs

  datatype Event = Event(id: string, dir: string, msgName: string, ts: int, cause: string,
                         semantic: set<string>, push: Option<bool>, fields: set<string>)

  datatype Sample = Sample(ts: int, id: string)

  datatype Protocol = Protocol(msgName: string, dir: string, count: nat, first: int, last: int, semantic: set<string>,
                               pushTrue: bool, pushFalse: bool, fields: map<string, nat>, samples: seq<Sample>)

  datatype Totals = Totals(events: nat, toServer: nat, toClient: nat, unnamed: nat, min: int, max: int)

  datatype Request = Request(dir: string, msgName: string, ts: int)

  datatype Reference = Reference(cause: string, ts: int, key: string)

  datatype State = State(totals: Totals, protocols: map<string, Protocol>, byId: map<string, Request>, refs: seq<Reference>)

  const TO_SERVER := "client_to_server"
  const TO_CLIENT := "server_to_client"

  function Key(dir: string, msgName: string): string {
    dir + "|" + msgName
  }

  function KeyOf(e: Event): string {
    Key(e.dir, e.msgName)
  }

  function FirstBar(s: string): nat {
    if s == [] || s[0] == '|' then 0 else 1 + FirstBar(s[1..])
  }

  lemma {:induction false} FirstBarAfter(a: string, x: string)
    requires '|' !in a
    ensures FirstBar(a + "|" + x) == |a|
  {
    if a == [] {
      assert a + "|" + x == "|" + x;
    } else {
      assert (a + "|" + x)[1..] == a[1..] + "|" + x;
      FirstBarAfter(a[1..], x);
    }
  }

  lemma {:induction false} BarPositions(a: string, x: string, b: string, y: string)
    requires '|' !in a && '|' !in b && a + "|" + x == b + "|" + y
    ensures a == b && x == y
  {
    var s, t := a + "|" + x, b + "|" + y;
    FirstBarAfter(a, x);
    FirstBarAfter(b, y);
    assert a == s[..|a|] && b == t[..|b|] && x == s[|a| + 1..] && y == t[|b| + 1..];
  }

  /** Keys tell protocols apart as long as directions hold no bar. */
  lemma KeysTellProtocolsApart(d: string, m: string, e: string, n: string)
    requires '|' !in d && '|' !in e
    ensures Key(d, m) == Key(e, n) <==> d == e && m == n
  {
    if Key(d, m) == Key(e, n) {
      BarPositions(d, m, e, n);
    }
  }

  // ---- adding one event ---------------------------------------------------------------

  function NewProtocol(e: Event): Protocol {
    Protocol(e.msgName, e.dir, 0, 0, 0, {}, false, false, map[], [])
  }

  function Counted(fields: map<string, nat>, paths: set<string>): map<string, nat> {
    map p | p in fields.Keys + paths :: (if p in fields then fields[p] else 0) + if p in paths then 1 else 0
  }

  function WithEvent(p: Protocol, e: Event): Protocol {
    Protocol(p.msgName, p.dir, p.count + 1,
             if p.count == 0 || e.ts < p.first then e.ts else p.first,
             if e.ts > p.last then e.ts else p.last,
             p.semantic + e.semantic,
             p.pushTrue || e.push == Some(true), p.pushFalse || e.push == Some(false),
             Counted(p.fields, e.fields), p.samples + [Sample(e.ts, e.id)])
  }

  function WithTotals(t: Totals, e: Event): Totals {
    Totals(t.events + 1,
           if e.dir == TO_SERVER then t.toServer + 1 else t.toServer,
           if e.dir == TO_CLIENT then t.toClient + 1 else t.toClient,
           if e.msgName == "" then t.unnamed + 1 else t.unnamed,
           if t.events == 0 || e.ts < t.min then e.ts else t.min,
           if e.ts > t.max then e.ts else t.max)
  }

  function Entry(protocols: map<string, Protocol>, e: Event): Protocol {
    if KeyOf(e) in protocols then protocols[KeyOf(e)] else NewProtocol(e)
  }

  /** `direction` "" lets every event through. */
  predicate Passes(e: Event, direction: string) {
    direction == "" || e.dir == direction
  }

  function Added(s: State, e: Event, direction: string): State {
    if !Passes(e, direction) then s
    else
      var t := s.(totals := WithTotals(s.totals, e), byId := s.byId[e.id := Request(e.dir, e.msgName, e.ts)]);
      if e.msgName == "" then t
      else
        t.(refs := if e.cause == "" then s.refs else s.refs + [Reference(e.cause, e.ts, KeyOf(e))],
           protocols := s.protocols[KeyOf(e) := WithEvent(Entry(s.protocols, e), e)])
  }

  function Init(): State {
    State(Totals(0, 0, 0, 0, 0, 0), map[], map[], [])
  }

  function AddedAll(events: seq<Event>, direction: string): State {
    if events == [] then Init() else Added(AddedAll(Front(events), direction), Last(events), direction)
  }

  // ---- what the statistics mean -------------------------------------------------------

  function Observed(events: seq<Event>, direction: string): seq<Event> {
    if events == [] then []
    else if Passes(Last(events), direction) then Observed(Front(events), direction) + [Last(events)]
    else Observed(Front(events), direction)
  }

  /** The named events of one protocol key, in order. */
  function OfKey(events: seq<Event>, key: string): seq<Event> {
    if events == [] then []
    else if Last(events).msgName != "" && KeyOf(Last(events)) == key then OfKey(Front(events), key) + [Last(events)]
    else OfKey(Front(events), key)
  }

  function CountIf(events: seq<Event>, p: Event -> bool): nat {
    if events == [] then 0 else CountIf(Front(events), p) + if p(Last(events)) then 1 else 0
  }

  function HasField(path: string): Event -> bool {
    (e: Event) => path in e.fields
  }

  function GoesTo(dir: string): Event -> bool {
    (e: Event) => e.dir == dir
  }

  function IsUnnamed(): Event -> bool {
    (e: Event) => e.msgName == ""
  }

  function SamplesOf(events: seq<Event>): seq<Sample> {
    seq(|events|, i requires 0 <= i < |events| => Sample(events[i].ts, events[i].id))
  }

  /** The smallest time, and the largest one, but not below zero. */
  predicate Spans(min: int, max: int, events: seq<Event>) {
    && (forall i | 0 <= i < |events| :: min <= events[i].ts <= max)
    && (events != [] ==> exists i :: 0 <= i < |events| && events[i].ts == min)
    && (max == 0 || exists i :: 0 <= i < |events| && events[i].ts == max)
  }

  /** `p` says about these events what a catalog entry is meant to say. */
  ghost predicate Describes(p: Protocol, events: seq<Event>) {
    && p.count == |events|
    && Spans(p.first, p.last, events)
    && (forall x :: x in p.semantic <==> exists i :: 0 <= i < |events| && x in events[i].semantic)
    && (p.pushTrue <==> exists i :: 0 <= i < |events| && events[i].push == Some(true))
    && (p.pushFalse <==> exists i :: 0 <= i < |events| && events[i].push == Some(false))
    && (forall x :: x in p.fields <==> CountIf(events, HasField(x)) > 0)
    && (forall x | x in p.fields :: p.fields[x] == CountIf(events, HasField(x)))
    && p.samples == SamplesOf(events)
  }

  ghost predicate TotalsMatch(t: Totals, observed: seq<Event>) {
    && t.events == |observed|
    && t.toServer == CountIf(observed, GoesTo(TO_SERVER)) && t.toClient == CountIf(observed, GoesTo(TO_CLIENT))
    && t.unnamed == CountIf(observed, IsUnnamed())
    && Spans(t.min, t.max, observed)
  }

  lemma {:induction false} CountMore(events: seq<Event>, e: Event, p: Event -> bool)
    ensures CountIf(events + [e], p) == CountIf(events, p) + if p(e) then 1 else 0
  {
    assert Front(events + [e]) == events;
  }

  lemma {:induction false} SpansMore(min: int, max: int, events: seq<Event>, e: Event)
    requires Spans(min, max, events)
    ensures Spans(if events == [] || e.ts < min then e.ts else min, if e.ts > max then e.ts else max, events + [e])
  {
    var more := events + [e];
    assert more[|events|] == e;
    if i :| 0 <= i < |events| && events[i].ts == min {
      assert more[i].ts == min;
    }
    if i :| 0 <= i < |events| && events[i].ts == max {
      assert more[i].ts == max;
    }
  }

  lemma {:induction false} DescribesFields(p: Protocol, events: seq<Event>, e: Event, x: string)
    requires x in p.fields <==> CountIf(events, HasField(x)) > 0
    requires x in p.fields ==> p.fields[x] == CountIf(events, HasField(x))
    ensures var fields := Counted(p.fields, e.fields);
            && (x in fields <==> CountIf(events + [e], HasField(x)) > 0)
            && (x in fields ==> fields[x] == CountIf(events + [e], HasField(x)))
  {
    CountMore(events, e, HasField(x));
  }

  lemma {:induction false} DescribesLabels(p: Protocol, events: seq<Event>, e: Event)
    requires Describes(p, events)
    ensures var q, more := WithEvent(p, e), events + [e];
            && (forall x :: x in q.semantic <==> exists i :: 0 <= i < |more| && x in more[i].semantic)
            && (q.pushTrue <==> exists i :: 0 <= i < |more| && more[i].push == Some(true))
            && (q.pushFalse <==> exists i :: 0 <= i < |more| && more[i].push == Some(false))
  {
    var more := events + [e];
    assert more[|events|] == e && forall i | 0 <= i < |events| :: more[i] == events[i];
  }

  lemma {:induction false} DescribesMore(p: Protocol, events: seq<Event>, e: Event)
    requires Describes(p, events)
    ensures Describes(WithEvent(p, e), events + [e])
  {
    SpansMore(p.first, p.last, events, e);
    DescribesLabels(p, events, e);
    forall x
      ensures var fields := Counted(p.fields, e.fields);
              && (x in fields <==> CountIf(events + [e], HasField(x)) > 0)
              && (x in fields ==> fields[x] == CountIf(events + [e], HasField(x)))
    {
      DescribesFields(p, events, e, x);
    }
    assert SamplesOf(events + [e]) == SamplesOf(events) + [Sample(e.ts, e.id)];
  }

  lemma {:induction false} TotalsMore(t: Totals, observed: seq<Event>, e: Event)
    requires TotalsMatch(t, observed)
    ensures TotalsMatch(WithTotals(t, e), observed + [e])
  {
    SpansMore(t.min, t.max, observed, e);
    CountMore(observed, e, GoesTo(TO_SERVER));
    CountMore(observed, e, GoesTo(TO_CLIENT));
    CountMore(observed, e, IsUnnamed());
  }

  /** A key has an entry exactly when a named event has it, and the entry describes those events. */
  ghost predicate ProtocolMatches(protocols: map<string, Protocol>, observed: seq<Event>, key: string) {
    && (key in protocols <==> OfKey(observed, key) != [])
    && (key in protocols ==>
          Describes(protocols[key], OfKey(observed, key)) && Key(protocols[key].dir, protocols[key].msgName) == key)
  }

  lemma {:induction false} OwnProtocolMore(protocols: map<string, Protocol>, observed: seq<Event>, e: Event)
    requires ProtocolMatches(protocols, observed, KeyOf(e)) && e.msgName != ""
    ensures Describes(WithEvent(Entry(protocols, e), e), OfKey(observed, KeyOf(e)) + [e])
  {
    DescribesMore(Entry(protocols, e), OfKey(observed, KeyOf(e)), e);
  }

  lemma {:induction false} ProtocolMore(s: State, observed: seq<Event>, e: Event, direction: string, key: string)
    requires ProtocolMatches(s.protocols, observed, key) && Passes(e, direction)
    ensures ProtocolMatches(Added(s, e, direction).protocols, observed + [e], key)
  {
    assert Front(observed + [e]) == observed;
    if e.msgName != "" && KeyOf(e) == key {
      OwnProtocolMore(s.protocols, observed, e);
    }
  }

  /**
   * One pass is exact: for every list of events, the totals and every protocol's entry say
   * what they are meant to say about the events that pass the direction filter. (The latest
   * time is taken from zero upwards.)
   */
  lemma {:induction false} OnePassIsExact(events: seq<Event>, direction: string, key: string)
    ensures var s, observed := AddedAll(events, direction), Observed(events, direction);
            TotalsMatch(s.totals, observed) && ProtocolMatches(s.protocols, observed, key)
  {
    if events != [] {
      OnePassIsExact(Front(events), direction, key);
      var s, observed := AddedAll(Front(events), direction), Observed(Front(events), direction);
      if Passes(Last(events), direction) {
        TotalsMore(s.totals, observed, Last(events));
        ProtocolMore(s, observed, Last(events), direction, key);
      }
    }
  }

  /** The events observed are those of the direction asked for, or all of them, in their order. */
  lemma {:induction false} ObservedIff(events: seq<Event>, direction: string, e: Event)
    ensures Subseq(Observed(events, direction), events)
    ensures e in Observed(events, direction) <==> e in events && (direction == "" || e.dir == direction)
    ensures direction == "" ==> Observed(events, direction) == events
  {
    if events != [] {
      ObservedIff(Front(events), direction, e);
      assert events == Front(events) + [Last(events)];
      SubseqExtend(Observed(Front(events), direction), Front(events), Last(events));
    }
  }

  // ---- every event is counted once ----------------------------------------------------

  /** The keys of the named events, one for each. */
  function NamedKeys(observed: seq<Event>): multiset<string> {
    if observed == [] then multiset{}
    else NamedKeys(Front(observed)) + if Last(observed).msgName != "" then multiset{KeyOf(Last(observed))} else multiset{}
  }

  /**
   * Protocol counts plus unnamed events make up the event count: the counts are the
   * multiplicities of a multiset with one element for each named event.
   */
  lemma {:induction false} CountsAddUp(events: seq<Event>, direction: string)
    ensures var s, keys := AddedAll(events, direction), NamedKeys(Observed(events, direction));
            && |keys| + s.totals.unnamed == s.totals.events
            && forall key :: keys[key] == if key in s.protocols then s.protocols[key].count else 0
  {
    var s, observed := AddedAll(events, direction), Observed(events, direction);
    forall key
      ensures NamedKeys(observed)[key] == if key in s.protocols then s.protocols[key].count else 0
    {
      OnePassIsExact(events, direction, key);
      KeyMultiplicity(observed, key);
    }
    OnePassIsExact(events, direction, "");
    NamedOrUnnamed(observed);
  }

  lemma {:induction false} KeyMultiplicity(observed: seq<Event>, key: string)
    ensures NamedKeys(observed)[key] == |OfKey(observed, key)|
  {
    if observed != [] {
      KeyMultiplicity(Front(observed), key);
    }
  }

  lemma {:induction false} NamedOrUnnamed(observed: seq<Event>)
    ensures |NamedKeys(observed)| + CountIf(observed, IsUnnamed()) == |observed|
  {
    if observed != [] {
      NamedOrUnnamed(Front(observed));
    }
  }
}
