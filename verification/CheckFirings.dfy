/**
 * cmd/gt-pipeline/check_hook.go, exactly which alerts are raised: an alert per rule that an
 * evaluated event matches and that has not fired within its cooldown, and none besides. The
 * cooldown is stated on the alerts raised so far, not on the engine's table of last times.
 */
module CheckFirings {
  import opened Seqs
  import opened CheckEngine

  // ---- what should fire -------------------------------------------------------------------

  datatype Firing = Firing(rule: Rule, trigger: Event, at: int)

  function Firings(jobs: seq<Job>): (r: seq<Firing>)
    ensures |r| == |jobs|
  {
    seq(|jobs|, i requires 0 <= i < |jobs| => Firing(jobs[i].rule, jobs[i].trigger, jobs[i].at))
  }

  /** No firing of this rule so far lies within its cooldown before `now`. */
  ghost predicate Due(soFar: seq<Firing>, r: Rule, now: int) {
    forall i | 0 <= i < |soFar| && soFar[i].rule.id == r.id :: now - soFar[i].at >= r.Cooldown()
  }

  /** Rule k fires on `e`: it matches, is due, and no rule before it with the same id fires on `e`. */
  ghost predicate FiresOn(m: Matcher, rules: seq<Rule>, soFar: seq<Firing>, e: Event, now: int, k: nat)
    requires k < |rules|
    decreases k
  {
    && m(rules[k], e) && Due(soFar, rules[k], now)
    && forall j: nat | j < k && rules[j].id == rules[k].id :: !FiresOn(m, rules, soFar, e, now, j)
  }

  /** The firings of the first n rules on `e`. */
  ghost function FiringsOn(m: Matcher, rules: seq<Rule>, soFar: seq<Firing>, e: Event, now: int, n: nat): seq<Firing>
    requires n <= |rules|
  {
    if n == 0 then
      []
    else
      FiringsOn(m, rules, soFar, e, now, n - 1)
      + if FiresOn(m, rules, soFar, e, now, n - 1) then [Firing(rules[n - 1], e, now)] else []
  }

  /** All firings of a run: an event is evaluated when it is readable and the engine was not stopped before it. */
  ghost function ExpectedFirings(m: Matcher, rules: seq<Rule>, run: seq<Step>): seq<Firing> {
    if run == [] then
      []
    else
      var soFar := ExpectedFirings(m, rules, Front(run));
      if Last(run).Inspects? && Last(run).e.readable && Stops !in Front(run) then
        soFar + FiringsOn(m, rules, soFar, Last(run).e, Last(run).now, |rules|)
      else
        soFar
  }

  // ---- the table of last times says the same ----------------------------------------------

  /** The time remembered for a rule is that of its last firing. */
  ghost predicate Remembered(fired: seq<Job>, lastFired: map<string, int>) {
    && (forall i | 0 <= i < |fired| :: fired[i].rule.id in lastFired && fired[i].at <= lastFired[fired[i].rule.id])
    && (forall id | id in lastFired :: exists i :: 0 <= i < |fired| && fired[i].rule.id == id && fired[i].at == lastFired[id])
  }

  lemma {:induction false} CoolingIff(fired: seq<Job>, lastFired: map<string, int>, r: Rule, now: int)
    requires Remembered(fired, lastFired)
    ensures Cooling(lastFired, r, now) <==> !Due(Firings(fired), r, now)
  {
    if Cooling(lastFired, r, now) {
      var i :| 0 <= i < |fired| && fired[i].rule.id == r.id && fired[i].at == lastFired[r.id];
      assert Firings(fired)[i].rule.id == r.id;
    }
    if !Due(Firings(fired), r, now) {
      var i :| 0 <= i < |fired| && Firings(fired)[i].rule.id == r.id && now - Firings(fired)[i].at < r.Cooldown();
      assert fired[i].rule.id == r.id && fired[i].at <= lastFired[r.id];
    }
  }

  lemma {:induction false} RememberedAfter(fired: seq<Job>, lastFired: map<string, int>, job: Job)
    requires Remembered(fired, lastFired) && !Cooling(lastFired, job.rule, job.at)
    ensures Remembered(fired + [job], lastFired[job.rule.id := job.at])
  {
    var all, last := fired + [job], lastFired[job.rule.id := job.at];
    forall id | id in last
      ensures exists i :: 0 <= i < |all| && all[i].rule.id == id && all[i].at == last[id]
    {
      if id == job.rule.id {
        assert all[|fired|] == job;
      } else {
        var i :| 0 <= i < |fired| && fired[i].rule.id == id && fired[i].at == lastFired[id];
        assert all[i] == fired[i];
      }
    }
  }

  lemma {:induction false} DeliverManyFiresNothing(s: State, n: nat)
    ensures var t := DeliverMany(s, n);
            t.past.fired == s.past.fired && t.engine.lastFired == s.engine.lastFired && t.engine.stopped == s.engine.stopped
  {
    if n > 0 {
      DeliverManyFiresNothing(s, n - 1);
    }
  }

  // ---- the rules in order -----------------------------------------------------------------

  lemma {:induction false} FiringsOnMembers(m: Matcher, rules: seq<Rule>, soFar: seq<Firing>, e: Event, now: int, n: nat, id: string)
    requires n <= |rules|
    ensures (exists f :: f in FiringsOn(m, rules, soFar, e, now, n) && f.rule.id == id)
            <==> exists j: nat :: j < n && rules[j].id == id && FiresOn(m, rules, soFar, e, now, j)
    ensures forall f :: f in FiringsOn(m, rules, soFar, e, now, n) ==> f.at == now
  {
    if n > 0 {
      FiringsOnMembers(m, rules, soFar, e, now, n - 1, id);
      if FiresOn(m, rules, soFar, e, now, n - 1) {
        assert Firing(rules[n - 1], e, now) in FiringsOn(m, rules, soFar, e, now, n);
      }
    }
  }

  /** A rule is due among the firings of the event so far exactly when it was due before and no rule with its id fired. */
  lemma {:induction false} DueAfterIff(m: Matcher, rules: seq<Rule>, soFar: seq<Firing>, e: Event, now: int, k: nat)
    requires k < |rules|
    ensures FiresOn(m, rules, soFar, e, now, k)
            <==> m(rules[k], e) && Due(soFar + FiringsOn(m, rules, soFar, e, now, k), rules[k], now)
  {
    var more := FiringsOn(m, rules, soFar, e, now, k);
    var all := soFar + more;
    FiringsOnMembers(m, rules, soFar, e, now, k, rules[k].id);
    assert forall i | 0 <= i < |soFar| :: all[i] == soFar[i];
    assert forall i | 0 <= i < |more| :: all[|soFar| + i] == more[i] && more[i] in more;
    if Due(soFar, rules[k], now) && !Due(all, rules[k], now) {
      var i :| 0 <= i < |all| && all[i].rule.id == rules[k].id && now - all[i].at < rules[k].Cooldown();
      assert all[i] == more[i - |soFar|];
    }
    if Due(all, rules[k], now) {
      assert Due(soFar, rules[k], now);
      forall f | f in more
        ensures f.rule.id != rules[k].id
      {
        var i :| 0 <= i < |more| && more[i] == f;
        assert all[|soFar| + i] == f && f.at == now;
      }
    }
  }

  lemma {:induction false} TryAllFires(s: State, m: Matcher, rules: seq<Rule>, e: Event, now: int, taken: nat -> nat, n: nat)
    requires n <= |rules| && Remembered(s.past.fired, s.engine.lastFired)
    ensures var t := TryAll(s, m, rules[..n], e, now, taken);
            && Remembered(t.past.fired, t.engine.lastFired) && t.engine.stopped == s.engine.stopped
            && Firings(t.past.fired) == Firings(s.past.fired) + FiringsOn(m, rules, Firings(s.past.fired), e, now, n)
  {
    if n == 0 {
      assert Firings(s.past.fired) + [] == Firings(s.past.fired);
    } else {
      TryAllFires(s, m, rules, e, now, taken, n - 1);
      assert Front(rules[..n]) == rules[..n - 1];
      var t := TryAll(s, m, rules[..n - 1], e, now, taken);
      var u := DeliverMany(t, taken(n - 1));
      DeliverManyFiresNothing(t, taken(n - 1));
      TryFires(u, m, rules[n - 1], e, now);
      assert m(rules[n - 1], e) && !Cooling(u.engine.lastFired, rules[n - 1], now)
        <==> FiresOn(m, rules, Firings(s.past.fired), e, now, n - 1) by {
        CoolingIff(u.past.fired, u.engine.lastFired, rules[n - 1], now);
        DueAfterIff(m, rules, Firings(s.past.fired), e, now, n - 1);
      }
      Associates(Firings(s.past.fired), FiringsOn(m, rules, Firings(s.past.fired), e, now, n - 1),
                 if FiresOn(m, rules, Firings(s.past.fired), e, now, n - 1) then [Firing(rules[n - 1], e, now)] else []);
    }
  }

  lemma {:induction false} TryFires(s: State, m: Matcher, r: Rule, e: Event, now: int)
    requires Remembered(s.past.fired, s.engine.lastFired)
    ensures var t := TryRule(s, m, r, e, now);
            && Remembered(t.past.fired, t.engine.lastFired) && t.engine.stopped == s.engine.stopped
            && Firings(t.past.fired) == Firings(s.past.fired)
                 + if m(r, e) && !Cooling(s.engine.lastFired, r, now) then [Firing(r, e, now)] else []
  {
    if m(r, e) && !Cooling(s.engine.lastFired, r, now) {
      var job := Job(r, e, now, SnapshotContext(s.engine.window, r.Context()));
      RememberedAfter(s.past.fired, s.engine.lastFired, job);
      assert Fire(s, r, e, now).past.fired == s.past.fired + [job];
    } else {
      assert Firings(s.past.fired) + [] == Firings(s.past.fired);
    }
  }

  // ---- over runs --------------------------------------------------------------------------

  lemma {:induction false} InspectFires(s: State, m: Matcher, rules: seq<Rule>, e: Event, now: int, taken: nat -> nat)
    requires Remembered(s.past.fired, s.engine.lastFired)
    ensures var t := Inspect(s, m, rules, e, now, taken);
            && Remembered(t.past.fired, t.engine.lastFired) && t.engine.stopped == s.engine.stopped
            && Firings(t.past.fired) == Firings(s.past.fired)
                 + if e.readable && !s.engine.stopped then FiringsOn(m, rules, Firings(s.past.fired), e, now, |rules|) else []
  {
    assert rules[..|rules|] == rules;
    TryAllFires(s, m, rules, e, now, taken, |rules|);
    assert Firings(s.past.fired) + [] == Firings(s.past.fired);
  }

  lemma {:induction false} StepFires(s: State, m: Matcher, rules: seq<Rule>, step: Step)
    requires Remembered(s.past.fired, s.engine.lastFired)
    ensures var t := Apply(s, m, rules, step);
            && Remembered(t.past.fired, t.engine.lastFired)
            && (t.engine.stopped <==> s.engine.stopped || step.Stops?)
            && Firings(t.past.fired) ==
                 if step.Inspects? && step.e.readable && !s.engine.stopped
                 then Firings(s.past.fired) + FiringsOn(m, rules, Firings(s.past.fired), step.e, step.now, |rules|)
                 else Firings(s.past.fired)
  {
    if step.Inspects? {
      InspectFires(s, m, rules, step.e, step.now, step.taken);
      assert Firings(s.past.fired) + [] == Firings(s.past.fired);
    }
  }

  lemma StopsInMore(run: seq<Step>)
    requires run != []
    ensures Stops in run <==> Stops in Front(run) || Last(run).Stops?
  {
    assert run == Front(run) + [Last(run)];
  }

  /**
   * Over every run the alerts raised are exactly the expected ones: for each readable event
   * inspected before the engine is stopped, and each rule in order, one exactly when the event
   * matches the rule and no alert of that rule id, of this event or before, is within its cooldown.
   */
  lemma {:induction false} FiringsAreExact(m: Matcher, rules: seq<Rule>, run: seq<Step>)
    ensures var s := Run(m, rules, run);
            && Remembered(s.past.fired, s.engine.lastFired)
            && (s.engine.stopped <==> Stops in run)
            && Firings(s.past.fired) == ExpectedFirings(m, rules, run)
  {
    if run != [] {
      FiringsAreExact(m, rules, Front(run));
      StopsInMore(run);
      StepFires(Run(m, rules, Front(run)), m, rules, Last(run));
    }
  }

  lemma {:induction false} ExpectedMatch(m: Matcher, rules: seq<Rule>, run: seq<Step>, f: Firing)
    requires f in ExpectedFirings(m, rules, run)
    ensures f.rule in rules && m(f.rule, f.trigger) && f.trigger.readable
    ensures exists i, taken :: 0 <= i < |run| && run[i] == Inspects(f.trigger, f.at, taken)
  {
    var soFar, step := ExpectedFirings(m, rules, Front(run)), Last(run);
    if f in soFar {
      ExpectedMatch(m, rules, Front(run), f);
      var i, taken :| 0 <= i < |Front(run)| && Front(run)[i] == Inspects(f.trigger, f.at, taken);
      assert run[i] == Inspects(f.trigger, f.at, taken);
    } else {
      FiringsOnMatch(m, rules, soFar, step.e, step.now, |rules|, f);
      assert run[|run| - 1] == Inspects(f.trigger, f.at, step.taken);
    }
  }

  lemma {:induction false} FiringsOnMatch(m: Matcher, rules: seq<Rule>, soFar: seq<Firing>, e: Event, now: int, n: nat, f: Firing)
    requires n <= |rules| && f in FiringsOn(m, rules, soFar, e, now, n)
    ensures f.rule in rules && m(f.rule, e) && f.trigger == e && f.at == now
  {
    if f in FiringsOn(m, rules, soFar, e, now, n - 1) {
      FiringsOnMatch(m, rules, soFar, e, now, n - 1, f);
    }
  }

  /** Every alert comes from a rule of the engine and an event of the run, readable, that matches it. */
  lemma AlertsMatchTheirRule(m: Matcher, rules: seq<Rule>, run: seq<Step>, i: nat)
    requires i < |Run(m, rules, run).past.fired|
    ensures var job := Run(m, rules, run).past.fired[i];
            && job.rule in rules && m(job.rule, job.trigger) && job.trigger.readable
            && exists k, taken :: 0 <= k < |run| && run[k] == Inspects(job.trigger, job.at, taken)
  {
    FiringsAreExact(m, rules, run);
    var fired := Run(m, rules, run).past.fired;
    var f := Firing(fired[i].rule, fired[i].trigger, fired[i].at);
    assert Firings(fired)[i] == f;
    ExpectedMatch(m, rules, run, f);
  }

  /**
   * With rules of different ids: inspecting a readable event raises an alert of rule k exactly
   * when the event matches it and no alert of that rule so far is within its cooldown.
   */
  lemma RuleFiresIff(m: Matcher, rules: seq<Rule>, run: seq<Step>, e: Event, now: int, taken: nat -> nat, k: nat)
    requires k < |rules| && e.readable && Stops !in run
    requires forall i, j | 0 <= i < j < |rules| :: rules[i].id != rules[j].id
    ensures var fired, after := Run(m, rules, run).past.fired, Run(m, rules, run + [Inspects(e, now, taken)]).past.fired;
            && Firings(fired) <= Firings(after)
            && ((exists i :: |fired| <= i < |after| && after[i].rule.id == rules[k].id)
                <==> m(rules[k], e) && forall i | 0 <= i < |fired| && fired[i].rule.id == rules[k].id ::
                       now - fired[i].at >= rules[k].Cooldown())
  {
    var all := run + [Inspects(e, now, taken)];
    var fired, after := Run(m, rules, run).past.fired, Run(m, rules, all).past.fired;
    var more := FiringsOn(m, rules, Firings(fired), e, now, |rules|);
    assert Firings(after) == Firings(fired) + more by {
      assert Front(all) == run;
      FiringsAreExact(m, rules, run);
      FiringsAreExact(m, rules, all);
    }
    FiringsOnMembers(m, rules, Firings(fired), e, now, |rules|, rules[k].id);
    MoreWithId(fired, after, more, rules[k].id);
    DueIff(fired, rules[k], now);
  }

  lemma MoreWithId(fired: seq<Job>, after: seq<Job>, more: seq<Firing>, id: string)
    requires Firings(after) == Firings(fired) + more
    ensures (exists i :: |fired| <= i < |after| && after[i].rule.id == id) <==> exists f :: f in more && f.rule.id == id
  {
    assert |after| == |fired| + |more|;
    forall i | |fired| <= i < |after|
      ensures after[i].rule == more[i - |fired|].rule && more[i - |fired|] in more
    {
      assert Firings(after)[i] == more[i - |fired|];
    }
    if f :| f in more && f.rule.id == id {
      var i :| 0 <= i < |more| && more[i] == f;
      assert after[|fired| + i].rule == more[|fired| + i - |fired|].rule;
    }
  }

  lemma DueIff(fired: seq<Job>, r: Rule, now: int)
    ensures Due(Firings(fired), r, now)
            <==> forall i | 0 <= i < |fired| && fired[i].rule.id == r.id :: now - fired[i].at >= r.Cooldown()
  {
    var fs := Firings(fired);
    if Due(fs, r, now) {
      forall i | 0 <= i < |fired| && fired[i].rule.id == r.id
        ensures now - fired[i].at >= r.Cooldown()
      {
        assert fs[i].rule.id == r.id;
      }
    }
  }

  // ---- the events evaluated ---------------------------------------------------------------

  /** The readable events inspected before the engine is stopped, in order. */
  ghost function Evaluated(rules: seq<Rule>, run: seq<Step>): seq<Event> {
    if run == [] then
      []
    else
      Evaluated(rules, Front(run))
      + if Last(run).Inspects? && rules != [] && Last(run).e.readable && Stops !in Front(run) then [Last(run).e] else []
  }

  /** The events that alerts take their context from are exactly the evaluated ones. */
  lemma {:induction false} SeenIsExact(m: Matcher, rules: seq<Rule>, run: seq<Step>)
    ensures Run(m, rules, run).past.seen == Evaluated(rules, run)
  {
    if run != [] {
      SeenIsExact(m, rules, Front(run));
      FiringsAreExact(m, rules, Front(run));
      RunKeeps(m, rules, Front(run));
      MaxContextIsMax(rules);
      var s := Run(m, rules, Front(run));
      match Last(run)
      case Inspects(e, now, taken) => TryAllKeeps(s, m, rules, e, now, taken, MaxContext(rules));
      case _ =>
    }
  }

  // ---- delivery ---------------------------------------------------------------------------

  /** Taking alerts delivers the oldest ones, in order. */
  lemma {:induction false} DeliversTheOldest(s: State, n: nat)
    requires n <= |s.engine.queue|
    ensures var t := DeliverMany(s, n);
            && t.engine == s.engine.(queue := s.engine.queue[n..])
            && t.past == s.past.(delivered := s.past.delivered + s.engine.queue[..n])
  {
    if n == 0 {
      assert s.past.delivered + [] == s.past.delivered;
    } else {
      DeliversTheOldest(s, n - 1);
      assert s.engine.queue[n - 1..][1..] == s.engine.queue[n..];
      assert s.engine.queue[..n] == s.engine.queue[..n - 1] + [s.engine.queue[n - 1]];
    }
  }

  /** An alert was dropped only if more were raised than the queue holds. */
  predicate DropsWhenFull(s: State) {
    |s.past.fired| >= |s.engine.queue| && (s.engine.dropped > 0 ==> |s.past.fired| > NOTIFY_QUEUE_SIZE)
  }

  lemma {:induction false} DeliversWhenFull(s: State, n: nat)
    requires DropsWhenFull(s)
    ensures DropsWhenFull(DeliverMany(s, n))
  {
    if n > 0 {
      DeliversWhenFull(s, n - 1);
    }
  }

  lemma {:induction false} TryAllDropsWhenFull(s: State, m: Matcher, rules: seq<Rule>, e: Event, now: int, taken: nat -> nat)
    requires DropsWhenFull(s)
    ensures DropsWhenFull(TryAll(s, m, rules, e, now, taken))
  {
    if rules != [] {
      TryAllDropsWhenFull(s, m, Front(rules), e, now, taken);
      DeliversWhenFull(TryAll(s, m, Front(rules), e, now, taken), taken(|rules| - 1));
    }
  }

  /** Whatever the worker does, no alert is dropped before more have been raised than the queue holds. */
  lemma {:induction false} FewAlertsAreNotDropped(m: Matcher, rules: seq<Rule>, run: seq<Step>)
    ensures var s := Run(m, rules, run);
            |s.past.fired| >= |s.engine.queue| && (|s.past.fired| <= NOTIFY_QUEUE_SIZE ==> s.engine.dropped == 0)
  {
    if run != [] {
      FewAlertsAreNotDropped(m, rules, Front(run));
      match Last(run)
      case Inspects(e, now, taken) => TryAllDropsWhenFull(Run(m, rules, Front(run)), m, rules, e, now, taken);
      case _ =>
    }
  }

  /** Nothing dropped so far, at most one alert waiting. */
  predicate UpToDate(s: State) {
    s.engine.dropped == 0 && |s.engine.queue| <= 1 && s.past.delivered + s.engine.queue == s.past.fired
  }

  lemma {:induction false} TakenKeepsUp(s: State, n: nat)
    requires UpToDate(s)
    ensures UpToDate(DeliverMany(s, n)) && (n > 0 ==> DeliverMany(s, n).engine.queue == [])
  {
    if n > 0 {
      TakenKeepsUp(s, n - 1);
      var t := DeliverMany(s, n - 1);
      if t.engine.queue != [] {
        assert t.engine.queue == [t.engine.queue[0]];
      }
    }
  }

  lemma {:induction false} TryAllKeepsUp(s: State, m: Matcher, rules: seq<Rule>, e: Event, now: int, taken: nat -> nat)
    requires UpToDate(s) && forall i: nat :: taken(i) > 0
    ensures UpToDate(TryAll(s, m, rules, e, now, taken))
  {
    if rules != [] {
      TryAllKeepsUp(s, m, Front(rules), e, now, taken);
      var t := TryAll(s, m, Front(rules), e, now, taken);
      TakenKeepsUp(t, taken(|rules| - 1));
      var u := DeliverMany(t, taken(|rules| - 1));
      assert u.past.delivered + [] == u.past.delivered;
    }
  }

  /** While the worker takes an alert between any two that are raised, none is dropped: all are delivered but the last one. */
  lemma {:induction false} WorkerKeepsUp(m: Matcher, rules: seq<Rule>, run: seq<Step>)
    requires forall step | step in run && step.Inspects? :: forall i: nat :: step.taken(i) > 0
    ensures var s := Run(m, rules, run);
            s.engine.dropped == 0 && |s.engine.queue| <= 1 && s.past.delivered + s.engine.queue == s.past.fired
  {
    if run != [] {
      var s, step := Run(m, rules, Front(run)), Last(run);
      assert run == Front(run) + [step] && step in run;
      WorkerKeepsUp(m, rules, Front(run));
      match step
      case Inspects(e, now, taken) => TryAllKeepsUp(s, m, rules, e, now, taken);
      case Delivers => TakenKeepsUp(s, 1);
      case Stops =>
    }
  }
}
