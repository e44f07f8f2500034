/**
 * sdk/tunnel.go: which frames on a stream leave its consumer the order in which requests were
 * sent, and runs of the tunnel in which it loses one in between when they do not.
 */
module TunnelSkips {
  import opened Seqs
  import opened LogicalStream
  import opened TunnelMux

  // ---- reaching a state ---------------------------------------------------------------

  ghost predicate Reachable(x: Mux) {
    exists run :: Legal(Init(), run) && Run(Init(), run) == x
  }

  lemma {:induction false} LegalAppend(x: Mux, run: seq<Step>, step: Step)
    requires Legal(x, run) && Valid(Run(x, run)) && Enabled(Run(x, run), step)
    ensures Legal(x, run + [step]) && Run(x, run + [step]) == Apply(Run(x, run), step)
    decreases |run|
  {
    if run == [] {
      assert [step][1..] == [];
    } else {
      assert (run + [step])[1..] == run[1..] + [step];
      LegalAppend(Apply(x, run[0]), run[1..], step);
    }
  }

  lemma Then(x: Mux, step: Step)
    requires Reachable(x) && Valid(x) && Enabled(x, step)
    ensures Reachable(Apply(x, step))
  {
    var run :| Legal(Init(), run) && Run(Init(), run) == x;
    LegalAppend(Init(), run, step);
  }

  /** The tunnel with one stream, number 0 under id 0. */
  function One(s: Stream, receiver: Receiver): Mux {
    Mux(map[0 := 0], [s], receiver, [], false)
  }

  lemma Consume(s: Stream, receiver: Receiver, m: Move)
    requires Reachable(One(s, receiver)) && CanMove(s, m) && !m.Ends?
    requires receiver.Delivering? ==> receiver.to == 0
    ensures Reachable(One(Moved(s, m), receiver))
  {
    Then(One(s, receiver), Consumes(0, m));
    assert [s][0 := Moved(s, m)] == [Moved(s, m)];
  }

  /** A request arrives and is delivered; an overflow leaves the stream to be closed. */
  lemma Hear(s: Stream, r: Req, d: Delivery)
    requires Reachable(One(s, Ready)) && Possible(s, d)
    ensures Reachable(One(Delivered(s, r, d), if d.Overflows? then Closing(0, ByOverflow) else Ready))
  {
    Then(One(s, Ready), Arrives(0, Request(r)));
    Then(One(s, Delivering(0, 0, r)), Delivers(d));
    assert [s][0 := Delivered(s, r, d)] == [Delivered(s, r, d)];
  }

  lemma Close(s: Stream, why: Why)
    requires Reachable(One(s, Closing(0, why)))
    ensures Reachable(One(Closed(s, why), Ready))
  {
    Then(One(s, Closing(0, why)), Closes);
    assert [s][0 := Closed(s, why)] == [Closed(s, why)];
  }

  lemma Cuts(s: Stream, kind: Kind)
    requires Reachable(One(s, Ready))
    ensures Reachable(One(Closed(s, ByFrame(kind)), Ready))
  {
    Then(One(s, Ready), Arrives(0, Cut(kind)));
    Close(s, ByFrame(kind));
  }

  /** The first frame opens the stream. */
  lemma Opening(f: Frame)
    requires f.Request? || f.kind.Malformed?
    ensures Reachable(One(Opened(), if f.Request? then Delivering(0, 0, f.r) else Closing(0, ByFrame(Malformed))))
  {
    assert Legal(Init(), []) && Run(Init(), []) == Init();
    Then(Init(), Arrives(0, f));
    assert map[][0 := 0] == map[0 := 0];
    assert [] + [Opened()] == [Opened()];
  }

  lemma OpenWith(r: Req)
    ensures Reachable(One(Delivered(Opened(), r, Queued), Ready))
  {
    Opening(Request(r));
    Then(One(Opened(), Delivering(0, 0, r)), Delivers(Queued));
    assert [Opened()][0 := Delivered(Opened(), r, Queued)] == [Delivered(Opened(), r, Queued)];
  }

  // ---- frames -------------------------------------------------------------------------

  /** Requests are told apart by their numbers. */
  predicate Distinct(fs: seq<Frame>) {
    forall i, j | 0 <= i < j < |fs| && fs[i].Request? && fs[j].Request? :: fs[i].r != fs[j].r
  }

  /** Other frames do not open a stream. */
  predicate Opens(fs: seq<Frame>) {
    fs != [] && (fs[0].Request? || fs[0].kind.Malformed?)
  }

  lemma {:induction false} RequestsAppend(a: seq<Frame>, b: seq<Frame>)
    ensures Requests(a + b) == Requests(a) + Requests(b)
    decreases |b|
  {
    if b == [] {
      assert a + b == a;
    } else {
      assert a + b == a + Front(b) + [Last(b)];
      RequestsAppend(a, Front(b));
      OneMoreFrame(a + Front(b), Last(b));
    }
  }

  lemma {:induction false} AllRequests(fs: seq<Frame>)
    requires Lead(fs) == |fs|
    ensures |Requests(fs)| == |fs|
  {
    if fs != [] {
      AllRequests(Front(fs));
    }
  }

  lemma {:induction false} LeadPrefix(fs: seq<Frame>, n: nat)
    requires n <= Lead(fs)
    ensures Lead(fs[..n]) == n && |Requests(fs[..n])| == n
  {
    var a := fs[..n];
    assert forall i | 0 <= i < |a| :: a[i] == fs[i];
    AllRequests(a);
  }

  /** The first frame and the rest. */
  lemma {:induction false} Split(fs: seq<Frame>)
    requires fs != []
    ensures Requests(fs) == (if fs[0].Request? then [fs[0].r] else []) + Requests(fs[1..])
  {
    assert fs == [fs[0]] + fs[1..];
    RequestsAppend([fs[0]], fs[1..]);
    assert Front([fs[0]]) == [];
  }

  // ---- after the stream was closed ----------------------------------------------------

  /** The consumer is past the first select of Recv and finds nothing. */
  predicate Waiting(s: Stream) {
    s.consumer.Receiving? && s.queue == []
  }

  /** The consumer has got a request too early. */
  ghost predicate Broken(s: Stream) {
    s.done && exists i: nat :: i < |s.past.returned| && i < |s.past.asked| && s.past.returned[i] != s.past.asked[i]
  }

  /** Whatever comes then, it stays so. */
  lemma {:induction false} StaysBroken(s: Stream, rest: seq<Frame>) returns (t: Stream)
    requires Reachable(One(s, Ready)) && Broken(s)
    ensures Reachable(One(t, Ready)) && Broken(t) && t.past.heard == s.past.heard + rest
    decreases |rest|
  {
    t := s;
    if rest != [] {
      var u := if rest[0].Request? then Delivered(s, rest[0].r, Discarded) else Closed(s, ByFrame(rest[0].kind));
      if rest[0].Request? {
        Hear(s, rest[0].r, Discarded);
      } else {
        Cuts(s, rest[0].kind);
      }
      assert Broken(u) && u.past.heard == s.past.heard + [rest[0]];
      t := StaysBroken(u, rest[1..]);
      assert s.past.heard + rest == s.past.heard + [rest[0]] + rest[1..];
    } else {
      assert s.past.heard + rest == s.past.heard;
    }
  }

  /** Request b was turned away, and the consumer still waits: the next one is queued and taken. */
  lemma {:induction false} NextIsTaken(s: Stream, b: Req, c: Req) returns (t: Stream)
    requires Reachable(One(s, Ready)) && s.done && Waiting(s) && s.past.asked == s.past.returned + [b] && c != b
    ensures Reachable(One(t, Ready)) && Broken(t) && t.past.heard == s.past.heard + [Request(c)]
  {
    var u := Delivered(s, c, Queued);
    Hear(s, c, Queued);
    assert u.queue == [c];
    Consume(u, Ready, Takes);
    t := Moved(u, Takes);
    var i := |s.past.returned|;
    assert t.past.returned[i] == c && t.past.asked[i] == b;
  }

  lemma {:induction false} BreaksBehind(s: Stream, b: Req, rest: seq<Frame>) returns (t: Stream)
    requires Reachable(One(s, Ready)) && s.done && Waiting(s) && s.past.asked == s.past.returned + [b]
    requires Requests(rest) != [] && forall f | f in rest && f.Request? :: f.r != b
    ensures Reachable(One(t, Ready)) && Broken(t) && t.past.heard == s.past.heard + rest
    decreases |rest|
  {
    Split(rest);
    assert s.past.heard + rest == s.past.heard + [rest[0]] + rest[1..];
    if rest[0].Request? {
      var u := NextIsTaken(s, b, rest[0].r);
      t := StaysBroken(u, rest[1..]);
    } else {
      Cuts(s, rest[0].kind);
      t := BreaksBehind(Closed(s, ByFrame(rest[0].kind)), b, rest[1..]);
    }
  }

  /** Nothing was turned away yet: the next request is, the one after it is taken. */
  lemma {:induction false} BreaksEven(s: Stream, rest: seq<Frame>) returns (t: Stream)
    requires Reachable(One(s, Ready)) && s.done && Waiting(s) && s.past.asked == s.past.returned
    requires |Requests(rest)| >= 2 && Distinct(rest)
    ensures Reachable(One(t, Ready)) && Broken(t) && t.past.heard == s.past.heard + rest
    decreases |rest|
  {
    Split(rest);
    assert s.past.heard + rest == s.past.heard + [rest[0]] + rest[1..];
    if rest[0].Request? {
      Hear(s, rest[0].r, Discarded);
      t := BreaksBehind(Delivered(s, rest[0].r, Discarded), rest[0].r, rest[1..]);
    } else {
      Cuts(s, rest[0].kind);
      t := BreaksEven(Closed(s, ByFrame(rest[0].kind)), rest[1..]);
    }
  }

  // ---- two requests after the first frame that closes ---------------------------------

  /** Every request is taken as it comes. */
  lemma {:induction false} TakesAll(fs: seq<Frame>) returns (s: Stream)
    requires fs != [] && Lead(fs) == |fs|
    ensures Reachable(One(s, Ready)) && s.past.heard == fs && !s.done
    ensures s.consumer.Idle? && s.queue == [] && s.past.asked == s.past.returned
  {
    var r := Last(fs).r;
    assert fs == Front(fs) + [Request(r)];
    var u := Opened();
    if |fs| == 1 {
      OpenWith(r);
    } else {
      u := TakesAll(Front(fs));
      Hear(u, r, Queued);
    }
    var v := Delivered(u, r, Queued);
    Consume(v, Ready, Begins);
    Consume(Moved(v, Begins), Ready, Takes);
    s := Moved(Moved(v, Begins), Takes);
  }

  /** The first closing frame finds the consumer waiting with nothing left. */
  lemma {:induction false} CutWhileWaiting(fs: seq<Frame>) returns (s: Stream)
    requires Opens(fs) && Lead(fs) < |fs|
    ensures Reachable(One(s, Ready)) && s.past.heard == fs[..Lead(fs) + 1]
    ensures s.done && Waiting(s) && s.past.asked == s.past.returned
  {
    var kind := fs[Lead(fs)].kind;
    assert fs[..Lead(fs) + 1] == fs[..Lead(fs)] + [Cut(kind)];
    if Lead(fs) == 0 {
      Opening(fs[0]);
      Consume(Opened(), Closing(0, ByFrame(kind)), Begins);
      Close(Moved(Opened(), Begins), ByFrame(kind));
      s := Closed(Moved(Opened(), Begins), ByFrame(kind));
    } else {
      LeadPrefix(fs, Lead(fs));
      var u := TakesAll(fs[..Lead(fs)]);
      Consume(u, Ready, Begins);
      Cuts(Moved(u, Begins), kind);
      s := Closed(Moved(u, Begins), ByFrame(kind));
    }
  }

  // ---- an overflow and a request after it ---------------------------------------------

  /** Nothing is taken. */
  lemma {:induction false} Fills(fs: seq<Frame>) returns (s: Stream)
    requires fs != [] && Lead(fs) == |fs| <= QUEUE_SIZE
    ensures Reachable(One(s, Ready)) && s.past.heard == fs && !s.done && |s.queue| == |fs|
    ensures s.consumer.Idle? && s.past.returned == [] && s.past.asked == s.queue
  {
    var r := Last(fs).r;
    assert fs == Front(fs) + [Request(r)];
    var u := Opened();
    if |fs| == 1 {
      OpenWith(r);
    } else {
      u := Fills(Front(fs));
      Hear(u, r, Queued);
    }
    s := Delivered(u, r, Queued);
  }

  /** The consumer takes everything, whatever the receive loop is about to do, and waits. */
  lemma {:induction false} Drains(s: Stream, receiver: Receiver) returns (t: Stream)
    requires Reachable(One(s, receiver)) && receiver.Closing? && s.consumer.Idle? && !s.done
    ensures Reachable(One(t, receiver)) && Waiting(t) && !t.done
    ensures t.past.returned == s.past.returned + s.queue
    ensures t.past.asked == s.past.asked && t.past.heard == s.past.heard
    decreases |s.queue|
  {
    Consume(s, receiver, Begins);
    t := Moved(s, Begins);
    if s.queue != [] {
      Consume(t, receiver, Takes);
      var u := Moved(t, Takes);
      t := Drains(u, receiver);
      assert s.past.returned + s.queue == s.past.returned + [s.queue[0]] + s.queue[1..];
    }
  }

  /** The 65th request overflows the queue; by the time it closes the stream, the queue is empty. */
  lemma {:induction false} OverflowWhileDraining(fs: seq<Frame>) returns (s: Stream)
    requires Lead(fs) > QUEUE_SIZE
    ensures Reachable(One(s, Ready)) && s.past.heard == fs[..QUEUE_SIZE + 1]
    ensures s.done && Waiting(s) && s.past.asked == s.past.returned + [fs[QUEUE_SIZE].r]
  {
    var r := fs[QUEUE_SIZE].r;
    assert fs[..QUEUE_SIZE + 1] == fs[..QUEUE_SIZE] + [Request(r)];
    LeadPrefix(fs, QUEUE_SIZE);
    var u := Fills(fs[..QUEUE_SIZE]);
    Hear(u, r, Overflows);
    var v := Drains(Delivered(u, r, Overflows), Closing(0, ByOverflow));
    Close(v, ByOverflow);
    s := Closed(v, ByOverflow);
  }

  // ---- the rule is exact --------------------------------------------------------------

  /** How many requests come after frame n. */
  lemma {:induction false} CountAfter(fs: seq<Frame>, n: nat)
    requires n < |fs| && n <= Lead(fs)
    ensures |Requests(fs[n + 1..])| == |Requests(fs)| - n - if fs[n].Request? then 1 else 0
  {
    LeadPrefix(fs, n);
    assert fs[..n + 1] == fs[..n] + [fs[n]];
    OneMoreFrame(fs[..n], fs[n]);
    assert fs == fs[..n + 1] + fs[n + 1..];
    RequestsAppend(fs[..n + 1], fs[n + 1..]);
  }

  lemma {:induction false} TwoAfterCut(fs: seq<Frame>) returns (t: Stream)
    requires Opens(fs) && Distinct(fs) && |Requests(fs)| > Lead(fs) + 1
    ensures Reachable(One(t, Ready)) && Broken(t) && t.past.heard == fs
  {
    var n := Lead(fs);
    if n == |fs| {
      AllRequests(fs);
    }
    CountAfter(fs, n);
    var s := CutWhileWaiting(fs);
    t := BreaksEven(s, fs[n + 1..]);
    assert fs[..n + 1] + fs[n + 1..] == fs;
  }

  lemma {:induction false} OneAfterOverflow(fs: seq<Frame>) returns (t: Stream)
    requires Distinct(fs) && Lead(fs) > QUEUE_SIZE && |Requests(fs)| > QUEUE_SIZE + 1
    ensures Reachable(One(t, Ready)) && Broken(t) && t.past.heard == fs
  {
    CountAfter(fs, QUEUE_SIZE);
    var s := OverflowWhileDraining(fs);
    t := BreaksBehind(s, fs[QUEUE_SIZE].r, fs[QUEUE_SIZE + 1..]);
    assert fs[..QUEUE_SIZE + 1] + fs[QUEUE_SIZE + 1..] == fs;
  }

  /** The stream with this number has heard these frames, and its consumer got the requests in line. */
  predicate InLine(run: seq<Step>, n: Number, fs: seq<Frame>)
    requires Legal(Init(), run) && n < |Run(Init(), run).streams|
  {
    var s := Run(Init(), run).streams[n];
    s.past.heard == fs ==> s.past.returned <= s.past.asked
  }

  /**
   * For every sequence of frames on a stream: its consumer gets a prefix of the requests in
   * every run of the tunnel, whatever happens on other streams, if and only if at most one
   * request comes after the first frame that ends the stream's side and, when more than 64
   * come before that one, there are at most 65. Otherwise some run leaves one out in between.
   */
  lemma {:induction false} PrefixIff(fs: seq<Frame>)
    requires Opens(fs) && Distinct(fs)
    ensures Safe(fs)
            <==> forall run, n: nat | Legal(Init(), run) && n < |Run(Init(), run).streams| :: InLine(run, n, fs)
  {
    if Safe(fs) {
      forall run, n: nat | Legal(Init(), run) && n < |Run(Init(), run).streams|
        ensures InLine(run, n, fs)
      {
        RequestsArriveInOrder(run, n);
      }
    } else {
      var t;
      if |Requests(fs)| > Lead(fs) + 1 {
        t := TwoAfterCut(fs);
      } else {
        t := OneAfterOverflow(fs);
      }
      var run :| Legal(Init(), run) && Run(Init(), run) == One(t, Ready);
      assert Run(Init(), run).streams[0] == t;
      assert !InLine(run, 0, fs);
    }
  }
}
