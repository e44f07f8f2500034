/**
 * cmd/gt-pipeline/check_hook.go: check rules are evaluated on every decoded event. A rule
 * that fires queues an alert with the events before it; a worker delivers the alerts.
 */
module CheckEngine {
  import opened Seqs

  const NOTIFY_QUEUE_SIZE := 64
  const DEFAULT_COOLDOWN := 30
  const DEFAULT_CONTEXT := 3

  datatype Dir = Requests | Responses | Unknown

  /** `readable`: the event can be rendered for evaluation; otherwise it is skipped. */
  datatype Event = Event(id: nat, dir: Dir, readable: bool)

  datatype Rule = Rule(id: string, cooldownSec: int, contextPerDirection: int)
  {
    function Cooldown(): int {
      if cooldownSec > 0 then cooldownSec else DEFAULT_COOLDOWN
    }

    function Context(): (n: int)
      ensures n > 0
    {
      if contextPerDirection > 0 then contextPerDirection else DEFAULT_CONTEXT
    }
  }

  /** checkrule.Match on the rendered event. */
  type Matcher = (Rule, Event) -> bool

  datatype Job = Job(rule: Rule, trigger: Event, at: int, context: map<Dir, seq<Event>>)

  /** What the main loop holds: windows, queue, times of the last firings. */
  datatype Engine = Engine(window: map<Dir, seq<Event>>, queue: seq<Job>, lastFired: map<string, int>, dropped: nat, stopped: bool)

  /** What has happened: events evaluated, alerts fired and how many events came before each, alerts delivered. */
  datatype History = History(seen: seq<Event>, fired: seq<Job>, before: seq<nat>, delivered: seq<Job>)

  datatype State = State(engine: Engine, past: History)

  function MaxContext(rules: seq<Rule>): int {
    if rules == [] then 0
    else
      var m := MaxContext(Front(rules));
      if Last(rules).Context() > m then Last(rules).Context() else m
  }

  function LastN<T>(s: seq<T>, n: nat): seq<T> {
    if n >= |s| then s else s[|s| - n..]
  }

  function SnapshotContext(window: map<Dir, seq<Event>>, n: nat): map<Dir, seq<Event>> {
    map d | d in window && window[d] != [] :: LastN(window[d], n)
  }

  function PushWindow(window: map<Dir, seq<Event>>, maxContext: int, e: Event): map<Dir, seq<Event>> {
    if maxContext <= 0 then window
    else window[e.dir := LastN((if e.dir in window then window[e.dir] else []) + [e], maxContext)]
  }

  predicate Cooling(lastFired: map<string, int>, r: Rule, now: int) {
    r.id in lastFired && now - lastFired[r.id] < r.Cooldown()
  }

  /** A firing: the cooldown starts at once; a full queue drops the alert. */
  function Fire(s: State, r: Rule, e: Event, now: int): State {
    var job := Job(r, e, now, SnapshotContext(s.engine.window, r.Context()));
    var cooled := s.engine.(lastFired := s.engine.lastFired[r.id := now]);
    State(if |s.engine.queue| < NOTIFY_QUEUE_SIZE then cooled.(queue := s.engine.queue + [job])
          else cooled.(dropped := s.engine.dropped + 1),
          s.past.(fired := s.past.fired + [job], before := s.past.before + [|s.past.seen|]))
  }

  function TryRule(s: State, m: Matcher, r: Rule, e: Event, now: int): State {
    if !m(r, e) || Cooling(s.engine.lastFired, r, now) then s else Fire(s, r, e, now)
  }

  /** The worker takes the oldest alert and delivers it. */
  function Deliver(s: State): State {
    if s.engine.queue == [] then s
    else State(s.engine.(queue := s.engine.queue[1..]), s.past.(delivered := s.past.delivered + [s.engine.queue[0]]))
  }

  function DeliverMany(s: State, n: nat): State {
    if n == 0 then s else Deliver(DeliverMany(s, n - 1))
  }

  /** The rules in order; before rule i the worker takes taken(i) alerts. */
  function TryAll(s: State, m: Matcher, rules: seq<Rule>, e: Event, now: int, taken: nat -> nat): State {
    if rules == [] then s
    else
      var t := TryAll(s, m, Front(rules), e, now, taken);
      TryRule(DeliverMany(t, taken(|rules| - 1)), m, Last(rules), e, now)
  }

  function Push(s: State, maxContext: int, e: Event): State {
    State(s.engine.(window := PushWindow(s.engine.window, maxContext, e)), s.past.(seen := s.past.seen + [e]))
  }

  function Inspect(s: State, m: Matcher, rules: seq<Rule>, e: Event, now: int, taken: nat -> nat): State {
    if rules == [] || s.engine.stopped || !e.readable then s
    else Push(TryAll(s, m, rules, e, now, taken), MaxContext(rules), e)
  }

  // ---- what every step keeps ----------------------------------------------------------

  function InDirection(events: seq<Event>, d: Dir): seq<Event> {
    if events == [] then []
    else InDirection(Front(events), d) + if Last(events).dir == d then [Last(events)] else []
  }

  /** Every window holds the last events of its direction, as many as the longest context needs. */
  ghost predicate WindowsMatch(window: map<Dir, seq<Event>>, seen: seq<Event>, maxContext: nat) {
    && (forall d | d in window :: window[d] == LastN(InDirection(seen, d), maxContext) && window[d] != [])
    && (forall d | d !in window :: InDirection(seen, d) == [])
  }

  /** The context of an alert: per direction, exactly the last n events before the trigger. */
  ghost predicate ContextIs(job: Job, before: seq<Event>, n: nat) {
    && (forall d | d in job.context :: job.context[d] == LastN(InDirection(before, d), n))
    && (forall d | d !in job.context :: InDirection(before, d) == [])
  }

  ghost predicate ContextsMatch(h: History) {
    && |h.before| == |h.fired|
    && forall i | 0 <= i < |h.fired| ::
         h.before[i] <= |h.seen| && h.fired[i].rule.Context() >= 0
         && ContextIs(h.fired[i], h.seen[..h.before[i]], h.fired[i].rule.Context())
  }

  /** Firings of one rule are at least its cooldown apart, and the last one is remembered. */
  ghost predicate Spaced(fired: seq<Job>, lastFired: map<string, int>) {
    && (forall i, j | 0 <= i < j < |fired| && fired[i].rule.id == fired[j].rule.id ::
          fired[j].at - fired[i].at >= fired[j].rule.Cooldown())
    && (forall i | 0 <= i < |fired| ::
          fired[i].rule.id in lastFired && fired[i].at <= lastFired[fired[i].rule.id])
  }

  /** Alerts are delivered in firing order; each is delivered, queued or dropped. */
  ghost predicate Conserved(s: State) {
    && Subseq(s.past.delivered + s.engine.queue, s.past.fired)
    && |s.past.fired| == |s.past.delivered| + |s.engine.queue| + s.engine.dropped
    && |s.engine.queue| <= NOTIFY_QUEUE_SIZE
  }

  ghost predicate Inv(s: State, maxContext: nat) {
    && WindowsMatch(s.engine.window, s.past.seen, maxContext)
    && ContextsMatch(s.past)
    && Spaced(s.past.fired, s.engine.lastFired)
    && Conserved(s)
  }

  lemma LastOfLast<T>(s: seq<T>, m: nat, n: nat)
    requires n <= m
    ensures LastN(LastN(s, m), n) == LastN(s, n)
  {
  }

  lemma {:induction false} ContextAtFiring(s: State, r: Rule, e: Event, now: int, maxContext: nat)
    requires WindowsMatch(s.engine.window, s.past.seen, maxContext) && 0 < r.Context() <= maxContext
    ensures ContextIs(Job(r, e, now, SnapshotContext(s.engine.window, r.Context())), s.past.seen, r.Context())
  {
    forall d | d in s.engine.window
      ensures LastN(s.engine.window[d], r.Context()) == LastN(InDirection(s.past.seen, d), r.Context())
    {
      LastOfLast(InDirection(s.past.seen, d), maxContext, r.Context());
    }
  }

  lemma {:induction false} SpacedAfter(fired: seq<Job>, lastFired: map<string, int>, job: Job)
    requires Spaced(fired, lastFired) && !Cooling(lastFired, job.rule, job.at)
    ensures Spaced(fired + [job], lastFired[job.rule.id := job.at])
  {
  }

  lemma {:induction false} ConservedAfter(s: State, job: Job)
    requires Conserved(s)
    ensures |s.engine.queue| < NOTIFY_QUEUE_SIZE ==>
              Subseq(s.past.delivered + (s.engine.queue + [job]), s.past.fired + [job])
    ensures Subseq(s.past.delivered + s.engine.queue, s.past.fired + [job])
  {
    SubseqExtend(s.past.delivered + s.engine.queue, s.past.fired, job);
    assert s.past.delivered + (s.engine.queue + [job]) == s.past.delivered + s.engine.queue + [job];
  }

  lemma {:induction false} FireKeeps(s: State, r: Rule, e: Event, now: int, maxContext: nat)
    requires Inv(s, maxContext) && 0 < r.Context() <= maxContext && !Cooling(s.engine.lastFired, r, now)
    ensures Inv(Fire(s, r, e, now), maxContext) && Fire(s, r, e, now).past.seen == s.past.seen
  {
    var job := Job(r, e, now, SnapshotContext(s.engine.window, r.Context()));
    ContextAtFiring(s, r, e, now, maxContext);
    SpacedAfter(s.past.fired, s.engine.lastFired, job);
    ConservedAfter(s, job);
    assert s.past.seen[..|s.past.seen|] == s.past.seen;
  }

  lemma {:induction false} DeliverKeeps(s: State, maxContext: nat)
    requires Inv(s, maxContext)
    ensures Inv(Deliver(s), maxContext) && Deliver(s).past.seen == s.past.seen
  {
    if s.engine.queue != [] {
      var q := s.engine.queue;
      assert s.past.delivered + [q[0]] + q[1..] == s.past.delivered + q;
    }
  }

  lemma {:induction false} DeliverManyKeeps(s: State, n: nat, maxContext: nat)
    requires Inv(s, maxContext)
    ensures Inv(DeliverMany(s, n), maxContext) && DeliverMany(s, n).past.seen == s.past.seen
  {
    if n > 0 {
      DeliverManyKeeps(s, n - 1, maxContext);
      DeliverKeeps(DeliverMany(s, n - 1), maxContext);
    }
  }

  lemma {:induction false} TryAllKeeps(s: State, m: Matcher, rules: seq<Rule>, e: Event, now: int, taken: nat -> nat, maxContext: nat)
    requires Inv(s, maxContext) && forall r | r in rules :: r.Context() <= maxContext
    ensures var t := TryAll(s, m, rules, e, now, taken);
            Inv(t, maxContext) && t.past.seen == s.past.seen
  {
    if rules != [] {
      TryAllKeeps(s, m, Front(rules), e, now, taken, maxContext);
      var t := DeliverMany(TryAll(s, m, Front(rules), e, now, taken), taken(|rules| - 1));
      DeliverManyKeeps(TryAll(s, m, Front(rules), e, now, taken), taken(|rules| - 1), maxContext);
      var r := Last(rules);
      if m(r, e) && !Cooling(t.engine.lastFired, r, now) {
        FireKeeps(t, r, e, now, maxContext);
      }
    }
  }

  /** Keeping the last events window by window is keeping the last events of all. */
  lemma LastOfMore<T>(all: seq<T>, e: T, n: nat)
    ensures LastN(LastN(all, n) + [e], n) == LastN(all + [e], n)
  {
  }

  lemma {:induction false} DirectionMore(seen: seq<Event>, e: Event, d: Dir)
    ensures InDirection(seen + [e], d) == if e.dir == d then InDirection(seen, d) + [e] else InDirection(seen, d)
  {
    assert Front(seen + [e]) == seen;
    assert InDirection(seen, d) + [] == InDirection(seen, d);
  }

  lemma {:induction false} PushWindows(window: map<Dir, seq<Event>>, seen: seq<Event>, maxContext: nat, e: Event)
    requires WindowsMatch(window, seen, maxContext) && maxContext > 0
    ensures WindowsMatch(PushWindow(window, maxContext, e), seen + [e], maxContext)
  {
    LastOfMore(InDirection(seen, e.dir), e, maxContext);
    forall d
      ensures InDirection(seen + [e], d) == if e.dir == d then InDirection(seen, d) + [e] else InDirection(seen, d)
    {
      DirectionMore(seen, e, d);
    }
  }

  lemma {:induction false} ContextsStay(h: History, e: Event)
    requires ContextsMatch(h)
    ensures ContextsMatch(h.(seen := h.seen + [e]))
  {
    forall i | 0 <= i < |h.fired|
      ensures (h.seen + [e])[..h.before[i]] == h.seen[..h.before[i]]
    {
    }
  }

  lemma {:induction false} PushKeeps(s: State, maxContext: nat, e: Event)
    requires Inv(s, maxContext) && maxContext > 0
    ensures Inv(Push(s, maxContext, e), maxContext)
  {
    PushWindows(s.engine.window, s.past.seen, maxContext, e);
    ContextsStay(s.past, e);
  }

  lemma {:induction false} MaxContextIsMax(rules: seq<Rule>)
    ensures MaxContext(rules) >= 0 && (rules != [] ==> MaxContext(rules) > 0)
    ensures forall r | r in rules :: r.Context() <= MaxContext(rules)
  {
    if rules != [] {
      MaxContextIsMax(Front(rules));
      assert rules == Front(rules) + [Last(rules)];
    }
  }

  // ---- runs ---------------------------------------------------------------------------

  datatype Step = Inspects(e: Event, now: int, taken: nat -> nat) | Delivers | Stops

  function Apply(s: State, m: Matcher, rules: seq<Rule>, step: Step): State {
    match step
    case Inspects(e, now, taken) => Inspect(s, m, rules, e, now, taken)
    case Delivers => Deliver(s)
    case Stops => s.(engine := s.engine.(stopped := true))
  }

  function Run(m: Matcher, rules: seq<Rule>, run: seq<Step>): State {
    if run == [] then State(Engine(map[], [], map[], 0, false), History([], [], [], []))
    else Apply(Run(m, rules, Front(run)), m, rules, Last(run))
  }

  lemma {:induction false} ApplyKeeps(s: State, m: Matcher, rules: seq<Rule>, step: Step)
    requires MaxContext(rules) >= 0 && Inv(s, MaxContext(rules))
    ensures Inv(Apply(s, m, rules, step), MaxContext(rules))
  {
    MaxContextIsMax(rules);
    match step
    case Inspects(e, now, taken) =>
      if rules != [] {
        TryAllKeeps(s, m, rules, e, now, taken, MaxContext(rules));
        PushKeeps(TryAll(s, m, rules, e, now, taken), MaxContext(rules), e);
      }
    case Delivers => DeliverKeeps(s, MaxContext(rules));
    case Stops =>
  }

  lemma {:induction false} RunKeeps(m: Matcher, rules: seq<Rule>, run: seq<Step>)
    ensures MaxContext(rules) >= 0 && Inv(Run(m, rules, run), MaxContext(rules))
  {
    MaxContextIsMax(rules);
    if run != [] {
      RunKeeps(m, rules, Front(run));
      ApplyKeeps(Run(m, rules, Front(run)), m, rules, Last(run));
    }
  }

  /** Every alert's trigger is the event at its position, or `e`, which is being evaluated. */
  ghost predicate Tied(h: History, e: Option<Event>) {
    && |h.before| == |h.fired|
    && forall i | 0 <= i < |h.fired| ::
         if h.before[i] < |h.seen| then h.seen[h.before[i]] == h.fired[i].trigger
         else h.before[i] == |h.seen| && e == Some(h.fired[i].trigger)
  }

  lemma {:induction false} DeliverManyTies(s: State, n: nat, e: Option<Event>)
    requires Tied(s.past, e)
    ensures Tied(DeliverMany(s, n).past, e)
  {
    if n > 0 {
      DeliverManyTies(s, n - 1, e);
    }
  }

  lemma {:induction false} TryAllTies(s: State, m: Matcher, rules: seq<Rule>, e: Event, now: int, taken: nat -> nat)
    requires Tied(s.past, None)
    ensures Tied(TryAll(s, m, rules, e, now, taken).past, Some(e))
  {
    if rules != [] {
      TryAllTies(s, m, Front(rules), e, now, taken);
      DeliverManyTies(TryAll(s, m, Front(rules), e, now, taken), taken(|rules| - 1), Some(e));
    }
  }

  lemma {:induction false} RunTies(m: Matcher, rules: seq<Rule>, run: seq<Step>)
    ensures Tied(Run(m, rules, run).past, None)
  {
    if run != [] {
      var s := Run(m, rules, Front(run));
      RunTies(m, rules, Front(run));
      match Last(run)
      case Inspects(e, now, taken) => TryAllTies(s, m, rules, e, now, taken);
      case _ =>
    }
  }

  /**
   * For every history of events and every interleaving with the worker: the i-th alert's
   * trigger is one of the events evaluated, and its context holds, per direction, exactly the
   * last events evaluated before that one, as many as its rule asks for or as there were.
   */
  lemma AlertsCarryTheirContext(m: Matcher, rules: seq<Rule>, run: seq<Step>, i: nat, d: Dir)
    requires i < |Run(m, rules, run).past.fired|
    ensures var h := Run(m, rules, run).past;
            && |h.before| == |h.fired| && h.before[i] < |h.seen| && h.seen[h.before[i]] == h.fired[i].trigger
            && h.fired[i].rule.Context() >= 0
            && (if d in h.fired[i].context then h.fired[i].context[d] else [])
               == LastN(InDirection(h.seen[..h.before[i]], d), h.fired[i].rule.Context())
  {
    RunKeeps(m, rules, run);
    RunTies(m, rules, run);
  }

  /** Firings of one rule are at least its cooldown apart, whatever the clock does. */
  lemma FiringsAreSpaced(m: Matcher, rules: seq<Rule>, run: seq<Step>, i: nat, j: nat)
    requires i < j < |Run(m, rules, run).past.fired|
    ensures var fired := Run(m, rules, run).past.fired;
            fired[i].rule.id == fired[j].rule.id ==> fired[j].at - fired[i].at >= fired[j].rule.Cooldown()
  {
    RunKeeps(m, rules, run);
  }

  /** Every alert is delivered, queued or dropped; delivery follows the order of firing. */
  lemma AlertsAreAccounted(m: Matcher, rules: seq<Rule>, run: seq<Step>)
    ensures var s := Run(m, rules, run);
            && |s.past.fired| == |s.past.delivered| + |s.engine.queue| + s.engine.dropped
            && Subseq(s.past.delivered, s.past.fired)
            && |s.engine.queue| <= NOTIFY_QUEUE_SIZE
  {
    RunKeeps(m, rules, run);
    var s := Run(m, rules, run);
    SubseqRefl(s.past.delivered);
    PrefixSubseq(s.past.delivered, s.past.delivered, s.engine.queue, s.past.fired);
  }

  // ---- the engine as an object --------------------------------------------------------

  class Checker {
    const rules: seq<Rule>
    const maxContext: int
    var window: map<Dir, seq<Event>>
    var ch: seq<Job>
    var lastFired: map<string, int>
    var dropped: nat
    var stopped: bool
    ghost var past: History

    ghost function Value(): State
      reads this
    {
      State(Engine(window, ch, lastFired, dropped, stopped), past)
    }

    ghost predicate Valid()
      reads this
    {
      maxContext == MaxContext(rules)
    }

    constructor (rules: seq<Rule>)
      ensures Valid() && this.rules == rules && forall m :: Value() == Run(m, rules, [])
    {
      var max, i := 0, 0;
      assert rules[..0] == [];
      while i < |rules|
        invariant 0 <= i <= |rules| && max == MaxContext(rules[..i])
      {
        assert Front(rules[..i + 1]) == rules[..i];
        if rules[i].Context() > max {
          max := rules[i].Context();
        }
        i := i + 1;
      }
      assert rules[..|rules|] == rules;
      this.rules, maxContext := rules, max;
      window, ch, lastFired, dropped, stopped := map[], [], map[], 0, false;
      past := History([], [], [], []);
    }

    /** The worker's receive. */
    method DeliverOne()
      modifies this
      ensures Value() == Deliver(old(Value()))
    {
      if |ch| > 0 {
        past := past.(delivered := past.delivered + [ch[0]]);
        ch := ch[1..];
      }
    }

    method DeliverSome(n: nat)
      modifies this
      ensures Value() == DeliverMany(old(Value()), n)
    {
      for i := 0 to n
        invariant Value() == DeliverMany(old(Value()), i)
      {
        DeliverOne();
      }
    }

    method Try(m: Matcher, r: Rule, e: Event, now: int)
      modifies this
      ensures Value() == TryRule(old(Value()), m, r, e, now)
    {
      if !m(r, e) {
        return;
      }
      if r.id in lastFired && now - lastFired[r.id] < r.Cooldown() {
        return;
      }
      lastFired := lastFired[r.id := now];
      var job := Job(r, e, now, SnapshotContext(window, r.Context()));
      if |ch| < NOTIFY_QUEUE_SIZE {
        ch := ch + [job];
      } else {
        dropped := dropped + 1;
      }
      past := past.(fired := past.fired + [job], before := past.before + [|past.seen|]);
    }

    /** `taken(i)`: how many alerts the worker takes before rule i is evaluated. */
    method InspectEvent(m: Matcher, e: Event, now: int, taken: nat -> nat)
      requires Valid()
      modifies this
      ensures Value() == Inspect(old(Value()), m, rules, e, now, taken)
    {
      if |rules| == 0 || stopped {
        return;
      }
      if !e.readable {
        return;
      }
      assert rules[..0] == [];
      for i := 0 to |rules|
        invariant Value() == TryAll(old(Value()), m, rules[..i], e, now, taken)
      {
        assert Front(rules[..i + 1]) == rules[..i];
        DeliverSome(taken(i));
        Try(m, rules[i], e, now);
      }
      assert rules[..|rules|] == rules;
      PushEvent(e);
    }

    method PushEvent(e: Event)
      requires Valid()
      modifies this
      ensures Value() == Push(old(Value()), MaxContext(rules), e)
    {
      past := past.(seen := past.seen + [e]);
      if maxContext <= 0 {
        return;
      }
      var w := (if e.dir in window then window[e.dir] else []) + [e];
      if |w| > maxContext {
        w := w[|w| - maxContext..];
      }
      window := window[e.dir := w];
    }
  }
}
