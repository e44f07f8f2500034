/**
 * examples/ws-decoder/decode.go and emit.go: the handshake of a flow, the switch to frames,
 * and what its counters say.
 */
module WebSocketProgress {
  import opened Packets
  import opened Seqs
  import opened StreamParser
  import opened WebSocketFrame
  import opened WebSocketFlow

  /**
   * A request to upgrade gives its event and leaves the flow waiting; another message of the
   * handshake that is neither such a request nor the switching response gives none.
   */
  lemma {:induction false} RequestIsAnnounced(http: Parser<Http>, s: State, buf: seq<byte>)
    requires Stable(http) && !s.handshaken && |buf| <= MAX_STREAM_BYTES
    requires http(buf).Framed? && http(buf).n == |buf| && http(buf).frame.isRequest
    ensures Stable(ParseFrame)
    ensures Loop(http, s, buf) == (s, [], if http(buf).frame.upgrade then [Handshake(false)] else [])
  {
    ParserIsStable();
    assert buf[|buf|..] == [];
    assert http([]).Wait?;
    assert Loop(http, s, []) == (s, [], []);
    assert EmitHandshake(http(buf).frame) + [] == EmitHandshake(http(buf).frame);
  }

  /** A response that does not switch gives no event, and the handshake goes on behind it. */
  lemma {:induction false} OtherResponsesAreSkipped(http: Parser<Http>, s: State, response: seq<byte>, more: seq<byte>)
    requires Stable(http) && !s.handshaken && |response + more| <= MAX_STREAM_BYTES
    requires http(response).Framed? && http(response).n == |response|
    requires !http(response).frame.isRequest && http(response).frame.status != 101
    ensures Stable(ParseFrame)
    ensures Loop(http, s, response + more) == Loop(http, s, more)
  {
    ParserIsStable();
    Extended(http, response, more);
    var (u, rest, events) := Loop(http, s, more);
    assert (response + more)[|response|..] == more;
    assert [] + events == events;
  }

  lemma Extended(http: Parser<Http>, a: seq<byte>, b: seq<byte>)
    requires Stable(http) && http(a).Framed?
    ensures http(a + b) == http(a)
  {
  }

  /**
   * The response that switches protocols gives its event, and everything behind it, also what
   * came in the same segment, is read as frames from then on.
   */
  lemma {:induction false} SwitchStartsFrames(http: Parser<Http>, s: State, response: seq<byte>, more: seq<byte>)
    requires Stable(http) && !s.handshaken && |response + more| <= MAX_STREAM_BYTES
    requires http(response).Framed? && http(response).n == |response|
    requires !http(response).frame.isRequest && http(response).frame.status == 101
    ensures Stable(ParseFrame)
    ensures var d := DrainCapped(ParseFrame, MAX_STREAM_BYTES, more);
            var (t, events) := EmitAll(s.(handshaken := true), d.frames);
            Loop(http, s, response + more) == (t, d.rest, [Handshake(true)] + events) && t.handshaken
  {
    ParserIsStable();
    Extended(http, response, more);
    assert (response + more)[|response|..] == more;
    LoopEmitsFrames(http, s.(handshaken := true), more);
  }

  /** Until a handshake message is complete nothing is consumed. */
  lemma IncompleteWaits(http: Parser<Http>, s: State, buf: seq<byte>)
    requires Stable(http) && !s.handshaken && |buf| <= MAX_STREAM_BYTES && !http(buf).Framed?
    ensures Stable(ParseFrame)
    ensures Loop(http, s, buf) == (s, buf, [])
  {
    ParserIsStable();
  }

  // ---- the counters -----------------------------------------------------------------------

  /** How many events are text messages, other messages, and control frames. */
  function Tally(events: seq<WebSocketFlow.Event>): Counts {
    if events == [] then
      Counts(0, 0, 0)
    else
      var c, e := Tally(Front(events)), Last(events);
      if e.Message? && e.text then c.(text := c.text + 1)
      else if e.Message? then c.(binary := c.binary + 1)
      else if e.Control? then c.(control := c.control + 1)
      else c
  }

  function Plus(a: Counts, b: Counts): Counts {
    Counts(a.text + b.text, a.binary + b.binary, a.control + b.control)
  }

  /** The flow's counters count exactly the text messages, binary messages and control frames it emitted. */
  lemma {:induction false} CountsMatchEvents(s: State, frames: seq<Frame>)
    ensures var (t, events) := EmitAll(s, frames); t.counts == Plus(s.counts, Tally(events))
  {
    if frames != [] {
      CountsMatchEvents(s, Front(frames));
      var (before, events) := EmitAll(s, Front(frames));
      var (after, more) := FrameEmitted(before, Last(frames));
      assert EmitAll(s, frames) == (after, events + more);
      FrameTallied(s.counts, before, Last(frames), events);
    }
  }

  lemma {:induction false} FrameTallied(start: Counts, s: State, f: Frame, events: seq<WebSocketFlow.Event>)
    requires s.counts == Plus(start, Tally(events))
    ensures var (t, more) := FrameEmitted(s, f); t.counts == Plus(start, Tally(events + more))
  {
    FrameCounts(s, f, events);
  }

  lemma {:induction false} FrameCounts(s: State, f: Frame, events: seq<WebSocketFlow.Event>)
    ensures var (t, more) := FrameEmitted(s, f);
            && Tally(events + more) == Plus(Tally(events), Tally(more))
            && t.counts == Plus(s.counts, Tally(more))
  {
    var more := FrameEmitted(s, f).1;
    if more == [] {
      assert events + more == events;
    } else {
      assert more == [more[0]] && Front([more[0]]) == [];
      assert Front(events + more) == events && Last(events + more) == more[0];
    }
  }
}
