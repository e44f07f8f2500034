/**
 * examples/ws-decoder/emit.go and decode.go: what a flow emits for the frames it receives.
 * Fragments are collected until the final one; control frames may come in between.
 */
module WebSocketFlow {
  import opened Packets
  import opened Seqs
  import opened StreamParser
  import opened WebSocketFrame

  const OP_CONTINUATION := 0
  const OP_TEXT := 1
  const OP_BINARY := 2
  const OP_CLOSE := 8
  const OP_PING := 9
  const OP_PONG := 10

  const MAX_STREAM_BYTES := 4 * 1024 * 1024

  datatype Counts = Counts(text: nat, binary: nat, control: nat)
  {
    function Total(): nat {
      text + binary + control
    }
  }

  /** The state of a flow, shared by its two directions. */
  datatype State = State(handshaken: bool, fragment: seq<byte>, fragOpcode: nat, counts: Counts)

  /** An event, with the version that its state change carries. */
  datatype Event =
    | Message(text: bool, payload: seq<byte>, fragmented: bool, masked: bool, version: nat)
    | Control(opcode: nat, payload: seq<byte>, masked: bool, version: nat)
    | Handshake(response: bool)
  {
    /** A handshake's state change has a version of its own: 1 for the request, 2 for the response. */
    function Version(): nat {
      if Handshake? then (if response then 2 else 1) else version
    }
  }

  predicate IsControl(opcode: nat) {
    opcode == OP_CLOSE || opcode == OP_PING || opcode == OP_PONG
  }

  predicate IsData(opcode: nat) {
    opcode == OP_TEXT || opcode == OP_BINARY || opcode == OP_CONTINUATION
  }

  function DataEmitted(s: State, f: Frame, opcode: nat, payload: seq<byte>, fragmented: bool): (State, seq<Event>) {
    var text := opcode == OP_TEXT;
    var c := if text then s.counts.(text := s.counts.text + 1) else s.counts.(binary := s.counts.binary + 1);
    (s.(counts := c), [Message(text, payload, fragmented, f.masked, c.Total())])
  }

  function FrameEmitted(s: State, f: Frame): (State, seq<Event>) {
    if IsControl(f.opcode) then
      var c := s.counts.(control := s.counts.control + 1);
      (s.(counts := c), [Control(f.opcode, f.payload, f.masked, c.Total())])
    else if f.opcode == OP_TEXT || f.opcode == OP_BINARY then
      if f.fin then DataEmitted(s.(fragment := []), f, f.opcode, f.payload, false)
      else (s.(fragment := f.payload, fragOpcode := f.opcode), [])
    else if f.opcode == OP_CONTINUATION then
      var whole := s.fragment + f.payload;
      if !f.fin then (s.(fragment := whole), [])
      else DataEmitted(s.(fragment := []), f, if s.fragOpcode == 0 then OP_BINARY else s.fragOpcode, whole, true)
    else
      (s, [])
  }

  function EmitAll(s: State, frames: seq<Frame>): (State, seq<Event>) {
    if frames == [] then (s, [])
    else
      var (before, events) := EmitAll(s, Front(frames));
      var (after, more) := FrameEmitted(before, Last(frames));
      (after, events + more)
  }

  // ---- a fragmented message becomes one event -----------------------------------------

  /** The first frames of those that carry a message in parts (section 5.4 of RFC 6455). */
  predicate Carries(data: seq<Frame>, opcode: nat, masked: bool, parts: seq<seq<byte>>) {
    && |data| <= |parts|
    && forall i | 0 <= i < |data| ::
         data[i] == Frame(if i == 0 then opcode else OP_CONTINUATION, i == |parts| - 1, masked, parts[i])
  }

  /** The data frames among others, in order. */
  function DataFrames(frames: seq<Frame>): seq<Frame> {
    if frames == [] then []
    else DataFrames(Front(frames)) + if IsData(Last(frames).opcode) then [Last(frames)] else []
  }

  function Messages(events: seq<Event>): seq<Event> {
    if events == [] then []
    else Messages(Front(events)) + if Last(events).Message? then [Last(events)] else []
  }

  function Controls(events: seq<Event>): seq<(nat, seq<byte>, bool)> {
    if events == [] then []
    else
      var e := Last(events);
      Controls(Front(events)) + if e.Control? then [(e.opcode, e.payload, e.masked)] else []
  }

  function ControlFrames(frames: seq<Frame>): seq<(nat, seq<byte>, bool)> {
    if frames == [] then []
    else
      var f := Last(frames);
      ControlFrames(Front(frames)) + if IsControl(f.opcode) then [(f.opcode, f.payload, f.masked)] else []
  }

  lemma {:induction false} ControlsPass(s: State, frames: seq<Frame>)
    ensures Controls(EmitAll(s, frames).1) == ControlFrames(frames)
  {
    if frames != [] {
      ControlsPass(s, Front(frames));
      var (before, events) := EmitAll(s, Front(frames));
      var more := FrameEmitted(before, Last(frames)).1;
      if more == [] {
        assert events + more == events;
      } else {
        assert Front(events + more) == events && Last(events + more) == more[0];
      }
    }
  }

  /** Versions number the events of frames without gaps, whatever the frames. */
  lemma {:induction false} VersionsHaveNoGaps(s: State, frames: seq<Frame>)
    ensures var (t, events) := EmitAll(s, frames);
            && t.counts.Total() == s.counts.Total() + |events|
            && forall i | 0 <= i < |events| :: !events[i].Handshake? && events[i].version == s.counts.Total() + i + 1
  {
    if frames != [] {
      VersionsHaveNoGaps(s, Front(frames));
    }
  }

  /** They start at 1, so over the whole flow the first two repeat those of the handshake. */
  lemma {:induction false} HandshakeVersionsRepeat(s: State, frames: seq<Frame>)
    requires s.counts.Total() == 0
    ensures var events := EmitAll(s, frames).1;
            && (|events| >= 1 ==> events[0].Version() == Handshake(false).Version())
            && (|events| >= 2 ==> events[1].Version() == Handshake(true).Version())
  {
    VersionsHaveNoGaps(s, frames);
  }

  lemma {:induction false} MessagesAppend(events: seq<Event>, more: seq<Event>)
    requires |more| <= 1
    ensures Messages(events + more) == Messages(events) + if |more| == 1 && more[0].Message? then more else []
  {
    if more == [] {
      assert events + more == events;
    } else {
      assert Front(events + more) == events;
    }
  }

  predicate Is(events: seq<Event>, opcode: nat, masked: bool, parts: seq<seq<byte>>) {
    && |events| == 1 && events[0].Message?
    && events[0].text == (opcode == OP_TEXT) && events[0].masked == masked
    && events[0].payload == Concat(parts) && events[0].fragmented == (|parts| > 1)
  }

  /** After the first n parts: they are buffered and no message is out, or it is complete and out. */
  ghost predicate Progress(s: State, messages: seq<Event>, opcode: nat, masked: bool, parts: seq<seq<byte>>, n: nat) {
    if n == |parts| then Is(messages, opcode, masked, parts)
    else
      && messages == []
      && (0 < n < |parts| ==> s.fragment == Concat(parts[..n]) && s.fragOpcode == opcode)
  }

  /** One more data frame. */
  lemma {:induction false} NextPart(s: State, opcode: nat, masked: bool, parts: seq<seq<byte>>, n: nat, f: Frame)
    requires (opcode == OP_TEXT || opcode == OP_BINARY) && n < |parts|
    requires Progress(s, [], opcode, masked, parts, n)
    requires f == Frame(if n == 0 then opcode else OP_CONTINUATION, n == |parts| - 1, masked, parts[n])
    ensures var (t, more) := FrameEmitted(s, f);
            Progress(t, more, opcode, masked, parts, n + 1) && |more| <= 1
  {
    assert parts[..n + 1] == parts[..n] + [parts[n]];
    assert Front(parts[..n + 1]) == parts[..n];
    assert parts[..|parts|] == parts;
    assert [] + parts[0] == parts[0];
  }

  lemma {:induction false} Collects(s: State, frames: seq<Frame>, opcode: nat, masked: bool, parts: seq<seq<byte>>)
    requires opcode == OP_TEXT || opcode == OP_BINARY
    requires parts != [] && Carries(DataFrames(frames), opcode, masked, parts)
    ensures var (t, events) := EmitAll(s, frames);
            Progress(t, Messages(events), opcode, masked, parts, |DataFrames(frames)|)
  {
    if frames != [] {
      var f := Last(frames);
      var data := DataFrames(Front(frames));
      assert Carries(data, opcode, masked, parts) by {
        assert forall i | 0 <= i < |data| :: data[i] == DataFrames(frames)[i];
      }
      Collects(s, Front(frames), opcode, masked, parts);
      var (before, events) := EmitAll(s, Front(frames));
      var more := FrameEmitted(before, f).1;
      MessagesAppend(events, more);
      if IsData(f.opcode) {
        assert f == DataFrames(frames)[|data|];
        assert Messages(events) == [];
        NextPart(before, opcode, masked, parts, |data|, f);
        assert [] + more == more;
      }
    }
  }

  /**
   * A message sent in one direction in any number of fragments, with control frames (and
   * frames of unknown kinds) anywhere in between, gives exactly one message event: with the
   * opcode of the first fragment and the payloads of all of them, whatever the flow was
   * doing before. The control frames all give their events, in order.
   */
  lemma FragmentsBecomeOneMessage(s: State, frames: seq<Frame>, opcode: nat, masked: bool, parts: seq<seq<byte>>)
    requires opcode == OP_TEXT || opcode == OP_BINARY
    requires parts != [] && |DataFrames(frames)| == |parts| && Carries(DataFrames(frames), opcode, masked, parts)
    ensures var (_, events) := EmitAll(s, frames);
            Is(Messages(events), opcode, masked, parts) && Controls(events) == ControlFrames(frames)
  {
    Collects(s, frames, opcode, masked, parts);
    ControlsPass(s, frames);
  }

  /**
   * The buffer belongs to the flow, not to a direction: a fragment of the other side in
   * between replaces what was collected, and the message comes out wrong.
   */
  lemma {:induction false} DirectionsShareTheBuffer(s: State, a: byte, b: byte, c: byte)
    ensures var frames := [Frame(OP_TEXT, false, true, [a]), Frame(OP_TEXT, false, false, [b]),
                           Frame(OP_CONTINUATION, true, true, [c])];
            var (t, events) := EmitAll(s, frames);
            Messages(events) == [Message(true, [b, c], true, true, t.counts.Total())]
  {
    var f1, f2 := Frame(OP_TEXT, false, true, [a]), Frame(OP_TEXT, false, false, [b]);
    var f3 := Frame(OP_CONTINUATION, true, true, [c]);
    assert Front([f1, f2, f3]) == [f1, f2] && Front([f1, f2]) == [f1] && Front([f1]) == [];
    assert EmitAll(s, []) == (s, []);
    assert EmitAll(s, [f1]).1 == [] && EmitAll(s, [f1]).0 == FrameEmitted(s, f1).0;
    var two := EmitAll(s, [f1, f2]);
    assert two.1 == [] && two.0.fragment == [b] && two.0.fragOpcode == OP_TEXT;
    assert [b] + [c] == [b, c];
  }

  // ---- the loop over one direction's buffer -------------------------------------------

  /** A parsed message of the HTTP handshake; how its text is read is not modelled. */
  datatype Http = Http(isRequest: bool, upgrade: bool, status: int)

  /** The response after which frames follow. */
  predicate Switches(h: Http) {
    !h.isRequest && h.status == 101
  }

  function EmitHandshake(h: Http): seq<Event> {
    if h.isRequest && h.upgrade then [Handshake(false)]
    else if Switches(h) then [Handshake(true)]
    else []
  }

  /** Consumes what is complete: handshake messages until the switch, frames from then on. */
  function Loop(http: Parser<Http>, s: State, buf: seq<byte>): (State, seq<byte>, seq<Event>)
    requires Stable(http) && Stable(ParseFrame)
    decreases |buf|
  {
    if |buf| > MAX_STREAM_BYTES then (s, [], [])
    else if s.handshaken then
      var o := ParseFrame(buf);
      if !o.Framed? then (s, buf, [])
      else
        var (t, more) := FrameEmitted(s, o.frame);
        var (u, rest, events) := Loop(http, t, buf[o.n..]);
        (u, rest, more + events)
    else
      var o := http(buf);
      if !o.Framed? then (s, buf, [])
      else
        var (u, rest, events) := Loop(http, s.(handshaken := Switches(o.frame)), buf[o.n..]);
        (u, rest, EmitHandshake(o.frame) + events)
  }

  /** One turn of the loop; `out` was emitted before. */
  lemma {:induction false} LoopTakesOne(http: Parser<Http>, s: State, buf: seq<byte>, out: seq<Event>)
    requires Stable(http) && Stable(ParseFrame) && |buf| <= MAX_STREAM_BYTES
    ensures s.handshaken && ParseFrame(buf).Framed? ==>
              var (t, more) := FrameEmitted(s, ParseFrame(buf).frame);
              var (u, rest, events) := Loop(http, t, buf[ParseFrame(buf).n..]);
              Loop(http, s, buf) == (u, rest, more + events) && out + (more + events) == out + more + events
    ensures !s.handshaken && http(buf).Framed? ==>
              var h := http(buf).frame;
              var (u, rest, events) := Loop(http, s.(handshaken := Switches(h)), buf[http(buf).n..]);
              && Loop(http, s, buf) == (u, rest, EmitHandshake(h) + events)
              && out + (EmitHandshake(h) + events) == out + EmitHandshake(h) + events
  {
  }

  lemma {:induction false} EmitAllAppend(s: State, a: seq<Frame>, b: seq<Frame>)
    ensures var (t, events) := EmitAll(s, a);
            var (u, more) := EmitAll(t, b);
            EmitAll(s, a + b) == (u, events + more)
    decreases |b|
  {
    var (t, events) := EmitAll(s, a);
    if b == [] {
      assert a + b == a && events + [] == events;
    } else {
      assert Front(a + b) == a + Front(b) && Last(a + b) == Last(b);
      EmitAllAppend(s, a, Front(b));
      var (u, more) := EmitAll(t, Front(b));
      var last := FrameEmitted(u, Last(b)).1;
      assert events + more + last == events + (more + last);
    }
  }

  lemma EmitOne(s: State, f: Frame)
    ensures EmitAll(s, [f]) == FrameEmitted(s, f)
  {
    assert Front([f]) == [];
    assert [] + FrameEmitted(s, f).1 == FrameEmitted(s, f).1;
  }

  /** After the handshake the loop emits what the frames in the buffer give. */
  lemma {:induction false} LoopEmitsFrames(http: Parser<Http>, s: State, buf: seq<byte>)
    requires Stable(http) && Stable(ParseFrame) && s.handshaken
    ensures var d := DrainCapped(ParseFrame, MAX_STREAM_BYTES, buf);
            var (t, events) := EmitAll(s, d.frames);
            Loop(http, s, buf) == (t, d.rest, events) && t.handshaken
    decreases |buf|
  {
    if |buf| <= MAX_STREAM_BYTES && ParseFrame(buf).Framed? {
      var o := ParseFrame(buf);
      EmitOne(s, o.frame);
      LoopEmitsFrames(http, FrameEmitted(s, o.frame).0, buf[o.n..]);
      EmitAllAppend(s, [o.frame], DrainCapped(ParseFrame, MAX_STREAM_BYTES, buf[o.n..]).frames);
    }
  }

  /** A flow that receives segments of one direction, one after the other. */
  function Receive(http: Parser<Http>, s: State, segments: seq<seq<byte>>): (State, seq<byte>, seq<Event>)
    requires Stable(http) && Stable(ParseFrame)
  {
    if segments == [] then (s, [], [])
    else
      var (t, buf, events) := Receive(http, s, Front(segments));
      var (u, rest, more) := Loop(http, t, buf + Last(segments));
      (u, rest, events + more)
  }

  lemma {:induction false} ReceiveEmitsFrames(http: Parser<Http>, s: State, segments: seq<seq<byte>>)
    requires Stable(http) && Stable(ParseFrame) && s.handshaken
    ensures var d := Feed(ParseFrame, MAX_STREAM_BYTES, segments);
            var (t, events) := EmitAll(s, d.frames);
            Receive(http, s, segments) == (t, d.rest, events) && t.handshaken
  {
    if segments != [] {
      ReceiveEmitsFrames(http, s, Front(segments));
      var (t, buf, events) := Receive(http, s, Front(segments));
      LoopEmitsFrames(http, t, buf + Last(segments));
      EmitAllAppend(s, Feed(ParseFrame, MAX_STREAM_BYTES, Front(segments)).frames,
                    DrainCapped(ParseFrame, MAX_STREAM_BYTES, buf + Last(segments)).frames);
    }
  }

  /**
   * After the handshake, what one direction emits does not depend on how its bytes were cut
   * into segments, as long as the buffer stays within 4 MiB.
   */
  lemma EventsDoNotDependOnSegments(http: Parser<Http>, s: State, segments: seq<seq<byte>>)
    requires Stable(http) && s.handshaken
    ensures Stable(ParseFrame)
    ensures Fits(ParseFrame, MAX_STREAM_BYTES, segments) ==>
              var d := Drain(ParseFrame, Concat(segments));
              var (t, events) := EmitAll(s, d.frames);
              Receive(http, s, segments) == (t, d.rest, events)
  {
    ParserIsStable();
    ReceiveEmitsFrames(http, s, segments);
    if Fits(ParseFrame, MAX_STREAM_BYTES, segments) {
      SegmentationDoesNotMatter(ParseFrame, MAX_STREAM_BYTES, segments);
    }
  }

  // ---- the decoder --------------------------------------------------------------------

  class Flow {
    var handshaken: bool
    var fragment: seq<byte>
    var fragOpcode: nat
    var counts: Counts

    constructor ()
      ensures Value() == State(false, [], 0, Counts(0, 0, 0))
    {
      handshaken, fragment, fragOpcode, counts := false, [], 0, Counts(0, 0, 0);
    }

    function Value(): State
      reads this
    {
      State(handshaken, fragment, fragOpcode, counts)
    }

    method EmitData(f: Frame, opcode: nat, payload: seq<byte>, fragmented: bool) returns (events: seq<Event>)
      modifies this`counts
      ensures (Value(), events) == DataEmitted(old(Value()), f, opcode, payload, fragmented)
    {
      if opcode == OP_TEXT {
        counts := counts.(text := counts.text + 1);
      } else {
        counts := counts.(binary := counts.binary + 1);
      }
      events := [Message(opcode == OP_TEXT, payload, fragmented, f.masked, counts.Total())];
    }

    method EmitFrame(f: Frame) returns (events: seq<Event>)
      modifies this
      ensures (Value(), events) == FrameEmitted(old(Value()), f)
    {
      events := [];
      if f.opcode == OP_PING || f.opcode == OP_PONG || f.opcode == OP_CLOSE {
        counts := counts.(control := counts.control + 1);
        events := [Control(f.opcode, f.payload, f.masked, counts.Total())];
      } else if f.opcode == OP_TEXT || f.opcode == OP_BINARY {
        if f.fin {
          fragment := [];
          events := EmitData(f, f.opcode, f.payload, false);
        } else {
          fragment, fragOpcode := f.payload, f.opcode;
        }
      } else if f.opcode == OP_CONTINUATION {
        fragment := fragment + f.payload;
        if f.fin {
          var op := if fragOpcode == 0 then OP_BINARY else fragOpcode;
          var payload := fragment;
          fragment := [];
          events := EmitData(f, op, payload, true);
        }
      }
    }

    /** One call of the decoder; `buf` is the direction's reassembly buffer with the new segment. */
    method Decode(http: Parser<Http>, buf: seq<byte>) returns (rest: seq<byte>, events: seq<Event>)
      requires Stable(http)
      modifies this
      ensures Stable(ParseFrame)
      ensures (Value(), rest, events) == Loop(http, old(Value()), buf)
    {
      ParserIsStable();
      rest, events := buf, [];
      ghost var goal := Loop(http, Value(), buf);
      assert [] + goal.2 == goal.2;
      while |rest| > 0
        invariant Stable(ParseFrame) && Continues(http, goal, Value(), rest, events)
        decreases |rest|
      {
        if |rest| > MAX_STREAM_BYTES {
          rest := [];
          assert events + [] == events;
          return;
        }
        var n, more := TakeOne(http, rest, events, goal);
        if n == 0 {
          return;
        }
        events, rest := events + more, rest[n..];
      }
      assert rest == [] && http([]).Wait? && events + [] == events;
    }

    /** One turn of the loop: a handshake message or a frame; n is 0 when it is incomplete. */
    method TakeOne(http: Parser<Http>, buf: seq<byte>, ghost before: seq<Event>, ghost goal: (State, seq<byte>, seq<Event>))
        returns (n: nat, events: seq<Event>)
      requires Stable(http) && Stable(ParseFrame) && |buf| <= MAX_STREAM_BYTES
      requires Continues(http, goal, Value(), buf, before)
      modifies this
      ensures n <= |buf|
      ensures if n == 0 then events == [] && Value() == old(Value()) && goal == (Value(), buf, before)
              else Continues(http, goal, Value(), buf[n..], before + events)
    {
      LoopTakesOne(http, Value(), buf, before);
      assert before + [] == before;
      n, events := 0, [];
      if !handshaken {
        var o := http(buf);
        if o.Framed? {
          n, events, handshaken := o.n, EmitHandshake(o.frame), Switches(o.frame);
        }
      } else {
        var f, consumed, ok := Parse(buf);
        if ok {
          n := consumed;
          events := EmitFrame(f);
        }
      }
    }
  }

  /** The loop comes to `goal` when it goes on from here. */
  predicate Continues(http: Parser<Http>, goal: (State, seq<byte>, seq<Event>), s: State, buf: seq<byte>, out: seq<Event>)
    requires Stable(http) && Stable(ParseFrame)
  {
    var (u, rest, events) := Loop(http, s, buf);
    goal == (u, rest, out + events)
  }
}
