/**
 * sdk/tunnel.go, tunnelStream: one logical stream of a tunnel. The tunnel's receive loop
 * queues requests and closes the stream; a consumer takes them with Recv. Recv is two
 * selects, and anything may happen between them.
 */
module LogicalStream {
  import opened Seqs

  const QUEUE_SIZE := 64

  type Req = nat

  /** A frame that ends the request side of a stream; a malformed request counts as a reset. */
  datatype Kind = HalfClose | Reset | Malformed

  datatype Frame = Request(r: Req) | Cut(kind: Kind)

  /** What closed a stream: a frame, an overflow of its queue, or the end of the tunnel. */
  datatype Why = NotYet | ByFrame(kind: Kind) | ByOverflow | ByEnd

  predicate Fails(why: Why) {
    why.ByOverflow? || (why.ByFrame? && !why.kind.HalfClose?)
  }

  /** `Receiving`: Recv is past its first select. `Ended`: the consumer has returned. */
  datatype Consumer = Idle | Receiving | Ended

  /**
   * What has happened so far: the frames addressed to the stream and their requests, those
   * queued before it was closed and after, those returned, how many of them after a failure,
   * and what closed it.
   */
  datatype History = History(heard: seq<Frame>, asked: seq<Req>, early: seq<Req>, post: seq<Req>, returned: seq<Req>,
                             late: nat, why: Why)

  /** `failed`: closed for an error (reset, overflow, malformed frame). */
  datatype Stream = Stream(queue: seq<Req>, done: bool, failed: bool, cancelled: bool, consumer: Consumer, past: History)

  function Opened(): Stream {
    Stream([], false, false, false, Idle, History([], [], [], [], [], 0, NotYet))
  }

  /** Only the first close counts. It also cancels the stream's context. */
  function Closed(s: Stream, why: Why): Stream {
    var h := Heard(s.past, why);
    if s.done then s.(past := h)
    else s.(done := true, failed := Fails(why), cancelled := true, past := h.(why := why))
  }

  function Heard(h: History, why: Why): History {
    if why.ByFrame? then h.(heard := h.heard + [Cut(why.kind)]) else h
  }

  function Cancelled(s: Stream): Stream {
    s.(cancelled := true)
  }

  // ---- the receive loop's side --------------------------------------------------------

  /** Room in the queue, a closed stream, or neither: when both are ready, either is taken. */
  datatype Delivery = Queued | Discarded | Overflows

  predicate Possible(s: Stream, d: Delivery) {
    match d
    case Queued => |s.queue| < QUEUE_SIZE
    case Discarded => s.done
    case Overflows => |s.queue| >= QUEUE_SIZE && !s.done
  }

  function Delivered(s: Stream, r: Req, d: Delivery): Stream
    requires Possible(s, d)
  {
    var asked := s.(past := s.past.(heard := s.past.heard + [Request(r)], asked := s.past.asked + [r]));
    if !d.Queued? then asked
    else if s.done then asked.(queue := s.queue + [r], past := asked.past.(post := s.past.post + [r]))
    else asked.(queue := s.queue + [r], past := asked.past.(early := s.past.early + [r]))
  }

  /** Delivering never waits for the consumer. */
  lemma DeliveryNeverBlocks(s: Stream)
    ensures exists d :: Possible(s, d)
  {
    assert Possible(s, if |s.queue| < QUEUE_SIZE then Queued else if s.done then Discarded else Overflows);
  }

  // ---- the consumer's side ------------------------------------------------------------

  /** What Recv does next: its first select, a case of the second one, or returning from decoding. */
  datatype Move = Begins | Takes | SeesDone | SeesCancel | Ends

  predicate CanMove(s: Stream, m: Move) {
    match m
    case Begins => s.consumer.Idle?
    case Takes => s.consumer.Receiving? && s.queue != []
    case SeesDone => s.consumer.Receiving? && s.done
    case SeesCancel => s.consumer.Receiving? && s.cancelled
    case Ends => s.consumer.Idle?
  }

  /** The request at the head is returned. */
  function Returned(s: Stream): Stream
    requires s.queue != []
  {
    s.(queue := s.queue[1..], consumer := Idle,
       past := s.past.(returned := s.past.returned + [s.queue[0]],
                       late := if s.failed then s.past.late + 1 else s.past.late))
  }

  function Moved(s: Stream, m: Move): Stream
    requires CanMove(s, m)
  {
    match m
    case Begins => if s.done && s.failed then s else s.(consumer := Receiving)
    case Takes => Returned(s)
    case SeesDone => if s.failed || s.queue == [] then s.(consumer := Idle) else Returned(s)
    case SeesCancel => s.(consumer := Idle)
    case Ends => s.(consumer := Ended)
  }

  // ---- frames -------------------------------------------------------------------------

  function Requests(fs: seq<Frame>): seq<Req> {
    if fs == [] then [] else Requests(Front(fs)) + if Last(fs).Request? then [Last(fs).r] else []
  }

  /** How many frames come before the first one that is not a request. */
  function Lead(fs: seq<Frame>): (n: nat)
    ensures n <= |fs|
    ensures n < |fs| ==> fs[n].Cut?
    ensures forall i | 0 <= i < n :: fs[i].Request?
  {
    if fs == [] || Lead(Front(fs)) < |fs| - 1 then
      if fs == [] then 0 else Lead(Front(fs))
    else
      if Last(fs).Request? then |fs| else |fs| - 1
  }

  /**
   * What a host may send on a stream and be sure of the order: at most one request after the
   * first frame that ends its side, and if more than 64 come before that, no more than 65.
   */
  predicate Safe(fs: seq<Frame>) {
    && |Requests(fs)| <= Lead(fs) + 1
    && (Lead(fs) <= QUEUE_SIZE || |Requests(fs)| <= QUEUE_SIZE + 1)
  }

  lemma OneMoreFrame(fs: seq<Frame>, f: Frame)
    ensures Requests(fs + [f]) == Requests(fs) + if f.Request? then [f.r] else []
    ensures Lead(fs + [f]) == if Lead(fs) == |fs| && f.Request? then |fs| + 1 else Lead(fs)
  {
    assert Front(fs + [f]) == fs;
  }

  // ---- what every step keeps ----------------------------------------------------------

  /** A request was turned away although the stream is not closed yet. */
  predicate Skipped(s: Stream) {
    !s.done && s.past.asked != s.past.early
  }

  /** Requests leave in the order they came; after a failure at most one more is returned. */
  ghost predicate Ordered(s: Stream) {
    && s.past.returned + s.queue == s.past.early + s.past.post
    && s.past.early <= s.past.asked
    && Subseq(s.past.early + s.past.post, s.past.asked)
    && |s.queue| <= QUEUE_SIZE
    && (!s.done ==> s.past.post == [] && !s.failed)
    && s.past.late + (if s.consumer.Receiving? then 1 else 0) <= 1 + (if s.failed then 0 else s.past.late)
    && (!s.failed ==> s.past.late == 0)
    && s.past.late <= |s.past.returned|
    && (s.failed ==> |s.past.returned| - s.past.late <= |s.past.early|)
  }

  ghost predicate Inv(s: Stream) {
    && Ordered(s)
    && (s.done <==> s.past.why != NotYet)
    && s.past.asked == Requests(s.past.heard)
    && Told(s.past)
  }

  /** What the frames heard say about the requests queued, by what closed the stream. */
  ghost predicate Told(h: History) {
    match h.why
    case NotYet =>
      && h.post == [] && Lead(h.heard) == |h.heard| == |h.asked|
      && (|h.early| < |h.asked| ==> QUEUE_SIZE <= |h.early| == |h.asked| - 1)
    case ByFrame(_) =>
      |h.early| == Lead(h.heard) < |h.heard| && |h.early| <= |h.asked| && Subseq(h.post, h.asked[|h.early|..])
    case ByOverflow =>
      QUEUE_SIZE <= |h.early| < Lead(h.heard) && |h.early| + |h.post| < |h.asked|
    case ByEnd =>
      h.post == []
  }

  lemma {:induction false} CloseKeeps(s: Stream, why: Why)
    requires Inv(s) && why != NotYet && (why.ByOverflow? <==> Skipped(s))
    ensures Inv(Closed(s, why))
  {
    if why.ByFrame? {
      OneMoreFrame(s.past.heard, Cut(why.kind));
    }
  }

  lemma {:induction false} DeliveryTold(s: Stream, r: Req, d: Delivery)
    requires Inv(s) && Possible(s, d) && !Skipped(s) && !s.past.why.ByEnd?
    ensures Told(Delivered(s, r, d).past)
  {
    var h := s.past;
    OneMoreFrame(h.heard, Request(r));
    if h.why.ByFrame? {
      SubseqExtend(h.post, h.asked[|h.early|..], r);
      assert (h.asked + [r])[|h.early|..] == h.asked[|h.early|..] + [r];
    } else if h.why.NotYet? {
      assert h.returned + s.queue == h.early;
    }
  }

  lemma {:induction false} DeliveryOrdered(s: Stream, r: Req, d: Delivery)
    requires Ordered(s) && Possible(s, d) && !Skipped(s)
    ensures Ordered(Delivered(s, r, d))
    ensures Skipped(Delivered(s, r, d)) <==> d.Overflows?
  {
    var h := s.past;
    SubseqExtend(h.early + h.post, h.asked, r);
    assert h.returned + (s.queue + [r]) == h.returned + s.queue + [r];
    assert h.early + (h.post + [r]) == h.early + h.post + [r];
    assert h.early + [] == h.early;
  }

  lemma {:induction false} DeliveryKeeps(s: Stream, r: Req, d: Delivery)
    requires Inv(s) && Possible(s, d) && !Skipped(s) && !s.past.why.ByEnd?
    ensures Inv(Delivered(s, r, d))
    ensures Skipped(Delivered(s, r, d)) <==> d.Overflows?
  {
    DeliveryOrdered(s, r, d);
    DeliveryTold(s, r, d);
    OneMoreFrame(s.past.heard, Request(r));
  }

  lemma {:induction false} MoveKeeps(s: Stream, m: Move)
    requires Inv(s) && CanMove(s, m)
    ensures Inv(Moved(s, m)) && (Skipped(Moved(s, m)) <==> Skipped(s))
  {
    if s.queue != [] {
      assert s.past.returned + [s.queue[0]] + s.queue[1..] == s.past.returned + s.queue;
    }
  }

  // ---- what the consumer sees ---------------------------------------------------------

  /** Requests are returned in order, each at most as often as it was asked. */
  lemma {:induction false} ReturnedInOrder(s: Stream)
    requires Inv(s)
    ensures Subseq(s.past.returned, s.past.asked)
  {
    PrefixSubseq(s.past.returned, s.past.returned, s.queue, s.past.asked) by {
      SubseqRefl(s.past.returned);
    }
  }

  /**
   * As long as no request was queued after the stream was closed, what was returned is a
   * prefix of what was asked, overflow or not.
   */
  lemma {:induction false} ReturnedIsPrefix(s: Stream)
    requires Inv(s) && s.past.post == []
    ensures s.past.returned <= s.past.asked
  {
    assert s.past.early + [] == s.past.early;
    assert s.past.returned <= s.past.returned + s.queue;
  }

  /** Frames that keep to the rule make the result a prefix, whatever the consumer does. */
  lemma {:induction false} SafeIsPrefix(s: Stream)
    requires Inv(s) && Safe(s.past.heard)
    ensures s.past.returned <= s.past.asked
  {
    var h := s.past;
    if h.post == [] {
      ReturnedIsPrefix(s);
    } else {
      assert h.why.ByFrame?;
      SubseqLength(h.post, h.asked[|h.early|..]);
      assert h.asked == h.early + h.post;
      assert h.returned <= h.returned + s.queue;
    }
  }

  /** After a failure at most one more request is returned; those before it are a prefix. */
  lemma {:induction false} AtMostOneAfterFailure(s: Stream)
    requires Inv(s) && s.failed
    ensures s.past.late <= 1 && s.past.late <= |s.past.returned|
    ensures s.past.returned[..|s.past.returned| - s.past.late] <= s.past.asked
  {
    var n := |s.past.returned| - s.past.late;
    assert s.past.returned[..n] == (s.past.returned + s.queue)[..n] == (s.past.early + s.past.post)[..n];
    assert (s.past.early + s.past.post)[..n] == s.past.early[..n];
  }

  // ---- the stream as an object --------------------------------------------------------

  class TunnelStream {
    var reqCh: seq<Req>
    var done: bool
    var closeErr: bool
    var ctxDone: bool
    ghost var consumer: Consumer
    ghost var past: History

    ghost function Value(): Stream
      reads this
    {
      Stream(reqCh, done, closeErr, ctxDone, consumer, past)
    }

    constructor ()
      ensures Value() == Opened()
    {
      reqCh, done, closeErr, ctxDone := [], false, false, false;
      consumer, past := Idle, Opened().past;
    }

    method Close(err: bool, ghost why: Why)
      requires err == Fails(why)
      modifies this
      ensures Value() == Closed(old(Value()), why)
    {
      past := Closed(Value(), why).past;
      if !done {
        closeErr := err;
        done := true;
        ctxDone := true;
      }
    }

    /** The select of the receive loop; `preferQueue` when both the queue and done are ready. */
    method Enqueue(r: Req, preferQueue: bool) returns (overflow: bool)
      modifies this
      ensures exists d :: Possible(old(Value()), d) && Value() == Delivered(old(Value()), r, d) && overflow == d.Overflows?
    {
      ghost var before := Value();
      ghost var d := Discarded;
      overflow := false;
      if |reqCh| < QUEUE_SIZE && (!done || preferQueue) {
        reqCh := reqCh + [r];
        d := Queued;
      } else if !done {
        overflow := true;
        d := Overflows;
      }
      past := Delivered(before, r, d).past;
      assert Possible(before, d) && Value() == Delivered(before, r, d);
    }

    /** The first select of Recv: a failed stream is reported at once. */
    method RecvBegins() returns (failed: bool)
      requires consumer.Idle?
      modifies this`consumer
      ensures Value() == Moved(old(Value()), Begins) && failed == (done && closeErr)
    {
      failed := done && closeErr;
      if !failed {
        consumer := Receiving;
      }
    }

    /** The second select, in the case `choice`: a request, or None for an error or the end. */
    method RecvEnds(choice: Move) returns (req: Option<Req>)
      requires CanMove(Value(), choice) && consumer.Receiving?
      modifies this
      ensures Value() == Moved(old(Value()), choice)
      ensures req == (if past.returned == old(past.returned) then None else Some(Last(past.returned)))
    {
      if choice.Takes? || (choice.SeesDone? && !closeErr && |reqCh| > 0) {
        req := Some(reqCh[0]);
        past := Returned(Value()).past;
        reqCh := reqCh[1..];
      } else {
        req := None;
      }
      consumer := Idle;
    }
  }
}
