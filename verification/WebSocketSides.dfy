/**
 * examples/ws-decoder/emit.go: the fragment buffer belongs to a flow, not to a direction. What
 * one side's message becomes when the other side sends frames in between.
 */
module WebSocketSides {
  import opened Packets
  import opened Seqs
  import opened WebSocketFrame
  import opened WebSocketFlow

  /** A data frame of this side; the mask bit tells the sides apart. */
  predicate IsOwn(f: Frame, masked: bool) {
    IsData(f.opcode) && f.masked == masked
  }

  function Own(frames: seq<Frame>, masked: bool): seq<Frame> {
    if frames == [] then [] else Own(Front(frames), masked) + if IsOwn(Last(frames), masked) then [Last(frames)] else []
  }

  /** The payloads of all of them, joined. */
  function Whole(own: seq<Frame>): seq<byte> {
    if own == [] then [] else Whole(Front(own)) + Last(own).payload
  }

  /** The fragments of one message, or their beginning. */
  predicate Fragments(own: seq<Frame>, opcode: nat, whole: bool) {
    && own != []
    && forall i | 0 <= i < |own| ::
         own[i].opcode == (if i == 0 then opcode else OP_CONTINUATION) && (own[i].fin <==> whole && i == |own| - 1)
  }

  /** From the first to the last fragment of a message of this side, whatever the other side sends. */
  predicate OneMessage(frames: seq<Frame>, masked: bool, opcode: nat) {
    && (opcode == OP_TEXT || opcode == OP_BINARY)
    && frames != [] && IsOwn(frames[0], masked) && IsOwn(Last(frames), masked)
    && Fragments(Own(frames, masked), opcode, true)
  }

  /** A text or binary frame, a final continuation frame, or one that is not empty. */
  predicate Disturbs(f: Frame) {
    || f.opcode == OP_TEXT || f.opcode == OP_BINARY
    || (f.opcode == OP_CONTINUATION && (f.fin || f.payload != []))
  }

  predicate Undisturbed(frames: seq<Frame>, masked: bool) {
    forall f | f in frames && f.masked != masked :: !Disturbs(f)
  }

  /** A frame of the other side's messages. */
  predicate IsOther(f: Frame, masked: bool) {
    IsData(f.opcode) && f.masked != masked
  }

  /** Begins a message in fragments; leaves bytes in the buffer; leaves the buffer empty. */
  predicate Starts(f: Frame) {
    (f.opcode == OP_TEXT || f.opcode == OP_BINARY) && !f.fin
  }

  predicate Leaves(f: Frame) {
    !f.fin && f.payload != []
  }

  predicate Empties(f: Frame) {
    f.fin || (f.opcode != OP_CONTINUATION && f.payload == [])
  }

  predicate EmptiedAfter(frames: seq<Frame>, masked: bool, i: nat) {
    exists j :: i < j < |frames| && IsOther(frames[j], masked) && Empties(frames[j])
  }

  /** Whatever the other side put into the buffer is out again. */
  predicate Emptied(frames: seq<Frame>, masked: bool) {
    forall i | 0 <= i < |frames| && IsOther(frames[i], masked) && Leaves(frames[i]) :: EmptiedAfter(frames, masked, i)
  }

  predicate LastStart(frames: seq<Frame>, masked: bool, i: nat)
    requires i < |frames|
  {
    && IsOther(frames[i], masked) && Starts(frames[i])
    && forall j | i < j < |frames| && IsOther(frames[j], masked) :: !Starts(frames[j])
  }

  /** The last message in fragments that the other side began, if any, is of this kind. */
  predicate SameKind(frames: seq<Frame>, masked: bool, opcode: nat) {
    forall i | 0 <= i < |frames| && LastStart(frames, masked, i) :: frames[i].opcode == opcode
  }

  /** No byte of this side is among them. */
  predicate Silent(frames: seq<Frame>, masked: bool) {
    forall f | f in frames && IsOwn(f, masked) :: f.payload == []
  }

  /** Frame k is the first one with a byte of the message, or the last one if it has none. */
  predicate IsFirstByte(frames: seq<Frame>, masked: bool, k: nat) {
    && k < |frames| && Silent(frames[..k], masked)
    && IsOwn(frames[k], masked) && (frames[k].payload != [] || k == |frames| - 1)
  }

  /** That frame, looked for from frame i on. */
  function FirstByte(frames: seq<Frame>, masked: bool, i: nat): (k: nat)
    requires i < |frames| && IsOwn(Last(frames), masked) && Silent(frames[..i], masked)
    ensures IsFirstByte(frames, masked, k)
    decreases |frames| - i
  {
    if IsOwn(frames[i], masked) && (frames[i].payload != [] || i == |frames| - 1) then i
    else
      assert frames[..i + 1] == frames[..i] + [frames[i]];
      FirstByte(frames, masked, i + 1)
  }

  /**
   * Before the message's first byte the other side may send what it likes, as long as its
   * bytes are out of the buffer again and the kind is the message's; from then on, nothing
   * that disturbs.
   */
  predicate Harmless(frames: seq<Frame>, masked: bool, opcode: nat, k: nat)
    requires k < |frames|
  {
    && Emptied(frames[..k], masked) && SameKind(frames[..k], masked, opcode)
    && Undisturbed(frames[k..], masked)
  }

  /** The last frame gives the message: its kind, its side, and the payloads of its fragments. */
  predicate Intact(s: State, frames: seq<Frame>, masked: bool, opcode: nat) {
    var own := Own(frames, masked);
    var (t, events) := EmitAll(s, frames);
    && events != []
    && Last(events) == Message(opcode == OP_TEXT, Whole(own), |own| > 1, masked, t.counts.Total())
  }

  // ---- the buffer between the first and the last fragment -----------------------------

  /** No byte that the other side sends occurs in `message`. */
  predicate Apart(frames: seq<Frame>, masked: bool, message: seq<byte>) {
    forall f | f in frames && f.masked != masked && IsData(f.opcode) :: forall b | b in f.payload :: b !in message
  }

  /** Bytes are missing, or one is the other side's. */
  ghost predicate Bad(buffer: seq<byte>, message: seq<byte>, size: nat) {
    |buffer| < size || exists b :: b in buffer && b !in message
  }

  lemma {:induction false} OwnBegins(frames: seq<Frame>, masked: bool)
    requires frames != [] && IsOwn(frames[0], masked)
    ensures Own(frames, masked) != [] && Own(frames, masked)[0] == frames[0]
    ensures |frames| == 1 ==> Own(frames, masked) == frames
  {
    if |frames| > 1 {
      OwnBegins(Front(frames), masked);
    } else {
      assert Own(Front(frames), masked) == [];
    }
  }

  lemma WholeAppend(own: seq<Frame>, f: Frame)
    ensures Whole(own + [f]) == Whole(own) + f.payload
  {
    assert Front(own + [f]) == own;
  }

  /** The frames up to the last one. */
  lemma {:induction false} OwnSplits(frames: seq<Frame>, masked: bool)
    requires frames != []
    ensures var f, own := Last(frames), Own(Front(frames), masked);
            && frames == Front(frames) + [f]
            && Own(frames, masked) == (if IsOwn(f, masked) then own + [f] else own)
            && Whole(Own(frames, masked)) == Whole(own) + if IsOwn(f, masked) then f.payload else []
  {
    var f, own := Last(frames), Own(Front(frames), masked);
    if IsOwn(f, masked) {
      WholeAppend(own, f);
    } else {
      assert own + [] == own && Whole(own) + [] == Whole(own);
    }
  }

  /** One more frame that is not the last fragment, after `size` bytes of the message. */
  lemma {:induction false} OneMore(s: State, f: Frame, size: nat, masked: bool, message: seq<byte>)
    requires size > 0 && (IsOwn(f, masked) ==> f.opcode == OP_CONTINUATION && !f.fin)
    ensures var t := FrameEmitted(s, f).0;
            var more := if IsOwn(f, masked) then |f.payload| else 0;
            && (Bad(s.fragment, message, size) && Apart([f], masked, message) ==> Bad(t.fragment, message, size + more))
            && (f.masked != masked && Disturbs(f) && Apart([f], masked, message) ==> Bad(t.fragment, message, size + more))
  {
    var t := FrameEmitted(s, f).0;
    assert f in [f];
    if f.payload != [] {
      assert f.payload[0] in f.payload;
    }
    assert forall b | b in s.fragment :: b in s.fragment + f.payload;
    assert forall b | b in f.payload :: b in s.fragment + f.payload;
  }

  /** The frames of a message up to one before the last fragment. */
  predicate Collecting(frames: seq<Frame>, masked: bool, opcode: nat) {
    && (opcode == OP_TEXT || opcode == OP_BINARY)
    && frames != [] && IsOwn(frames[0], masked) && Fragments(Own(frames, masked), opcode, false)
  }

  lemma {:induction false} CollectingFront(frames: seq<Frame>, masked: bool, opcode: nat)
    requires Collecting(frames, masked, opcode) && |frames| > 1
    ensures Collecting(Front(frames), masked, opcode)
    ensures IsOwn(Last(frames), masked) ==> Last(frames).opcode == OP_CONTINUATION && !Last(frames).fin
    ensures Own(Front(frames), masked) != [] && Own(Front(frames), masked)[0] == frames[0]
  {
    var own := Own(Front(frames), masked);
    OwnBegins(Front(frames), masked);
    OwnSplits(frames, masked);
    assert forall i | 0 <= i < |own| :: own[i] == Own(frames, masked)[i];
    if IsOwn(Last(frames), masked) {
      assert Last(frames) == Own(frames, masked)[|own|];
    }
  }

  lemma {:induction false} StartsWith(s: State, frames: seq<Frame>, masked: bool)
    requires |frames| == 1 && IsOwn(frames[0], masked)
    ensures EmitAll(s, frames) == FrameEmitted(s, frames[0])
    ensures Own(frames, masked) == frames && Whole(frames) == frames[0].payload
  {
    EmitOne(s, frames[0]);
    assert frames == [frames[0]];
    OwnBegins(frames, masked);
    WholeAppend([], frames[0]);
    assert [] + frames == frames && [] + frames[0].payload == frames[0].payload;
  }

  lemma {:induction false} SilentIsEmpty(frames: seq<Frame>, masked: bool)
    requires Silent(frames, masked)
    ensures Whole(Own(frames, masked)) == []
  {
    if frames != [] {
      assert Last(frames) in frames && forall f | f in Front(frames) :: f in frames;
      SilentIsEmpty(Front(frames), masked);
      OwnSplits(frames, masked);
    }
  }

  // ---- before the first byte ----------------------------------------------------------

  lemma {:induction false} EmptiedMore(frames: seq<Frame>, masked: bool)
    requires frames != []
    ensures var f := Last(frames);
            Emptied(frames, masked)
            <==> if IsOther(f, masked) && Empties(f) then true
                 else if IsOther(f, masked) && Leaves(f) then false
                 else Emptied(Front(frames), masked)
  {
    var f, n, before := Last(frames), |frames| - 1, Front(frames);
    assert forall i | 0 <= i < n :: frames[i] == before[i];
    if IsOther(f, masked) && Empties(f) {
      assert forall i | 0 <= i < n :: EmptiedAfter(frames, masked, i);
    } else {
      forall i: nat | i < n
        ensures EmptiedAfter(frames, masked, i) <==> EmptiedAfter(before, masked, i)
      {
        if j :| i < j < |before| && IsOther(before[j], masked) && Empties(before[j]) {
          assert Empties(frames[j]);
        }
        if j :| i < j < |frames| && IsOther(frames[j], masked) && Empties(frames[j]) {
          assert Empties(before[j]);
        }
      }
      assert !EmptiedAfter(frames, masked, n);
    }
  }

  lemma {:induction false} KindMore(frames: seq<Frame>, masked: bool, opcode: nat)
    requires frames != []
    ensures var f := Last(frames);
            SameKind(frames, masked, opcode)
            <==> if IsOther(f, masked) && Starts(f) then f.opcode == opcode else SameKind(Front(frames), masked, opcode)
  {
    var f, n, before := Last(frames), |frames| - 1, Front(frames);
    assert forall i | 0 <= i < n :: frames[i] == before[i];
    if IsOther(f, masked) && Starts(f) {
      assert LastStart(frames, masked, n);
    } else {
      assert !LastStart(frames, masked, n);
      assert forall i | 0 <= i < n :: LastStart(frames, masked, i) <==> LastStart(before, masked, i);
    }
  }

  /** One frame without a byte of the message; `empty` and `same` say what held before it. */
  lemma {:induction false} OneBefore(t: State, f: Frame, masked: bool, opcode: nat, empty: bool, same: bool)
    requires (t.fragment == [] <==> empty) && (t.fragOpcode == opcode <==> same)
    requires t.fragOpcode == OP_TEXT || t.fragOpcode == OP_BINARY
    requires IsOwn(f, masked) ==> f.opcode == OP_CONTINUATION && !f.fin && f.payload == []
    ensures var u := FrameEmitted(t, f).0;
            && (u.fragment == []
                <==> if IsOther(f, masked) && Empties(f) then true else if IsOther(f, masked) && Leaves(f) then false else empty)
            && (u.fragOpcode == opcode <==> if IsOther(f, masked) && Starts(f) then f.opcode == opcode else same)
            && (u.fragOpcode == OP_TEXT || u.fragOpcode == OP_BINARY)
  {
    assert |t.fragment + f.payload| == |t.fragment| + |f.payload|;
  }

  /** The buffer is empty if and only if it was emptied, and it is known which kind is collected. */
  lemma {:induction false} BeforeFirstByte(s: State, frames: seq<Frame>, masked: bool, opcode: nat)
    requires Collecting(frames, masked, opcode) && Silent(frames, masked)
    ensures var t := EmitAll(s, frames).0;
            && (t.fragment == [] <==> Emptied(frames, masked))
            && (t.fragOpcode == opcode <==> SameKind(frames, masked, opcode))
            && (t.fragOpcode == OP_TEXT || t.fragOpcode == OP_BINARY)
  {
    var f, before := Last(frames), Front(frames);
    assert f in frames && forall g | g in before :: g in frames;
    if |frames| == 1 {
      StartsWith(s, frames, masked);
      assert Own(frames, masked)[0] == frames[0];
    } else {
      CollectingFront(frames, masked, opcode);
      BeforeFirstByte(s, before, masked, opcode);
      OneBefore(EmitAll(s, before).0, f, masked, opcode, Emptied(before, masked), SameKind(before, masked, opcode));
      EmptiedMore(frames, masked);
      KindMore(frames, masked, opcode);
    }
  }

  predicate Foreign(buffer: seq<byte>, message: seq<byte>) {
    forall b | b in buffer :: b !in message
  }

  /** What is then in the buffer is not the message's. */
  lemma {:induction false} ForeignBefore(s: State, frames: seq<Frame>, masked: bool, opcode: nat, message: seq<byte>)
    requires Collecting(frames, masked, opcode) && Silent(frames, masked) && Apart(frames, masked, message)
    ensures Foreign(EmitAll(s, frames).0.fragment, message)
  {
    var f, before := Last(frames), Front(frames);
    assert f in frames && forall g | g in before :: g in frames;
    if |frames| == 1 {
      StartsWith(s, frames, masked);
      assert Own(frames, masked)[0] == frames[0];
    } else {
      CollectingFront(frames, masked, opcode);
      ForeignBefore(s, before, masked, opcode, message);
      assert IsData(f.opcode) ==> Foreign(f.payload, message);
      OneForeign(EmitAll(s, before).0, f, message);
    }
  }

  lemma {:induction false} OneForeign(t: State, f: Frame, message: seq<byte>)
    requires Foreign(t.fragment, message) && (IsData(f.opcode) ==> Foreign(f.payload, message))
    ensures Foreign(FrameEmitted(t, f).0.fragment, message)
  {
  }

  // ---- from the first byte on ---------------------------------------------------------

  predicate Untouched(frames: seq<Frame>, masked: bool, k: nat)
    requires k < |frames|
  {
    Emptied(frames[..k], masked) && Undisturbed(frames[k..], masked)
  }

  /** What the buffer holds once frame k has brought the first byte. */
  ghost predicate Holds(t: State, frames: seq<Frame>, masked: bool, opcode: nat, message: seq<byte>, k: nat)
    requires k < |frames|
  {
    var parts := Whole(Own(frames, masked));
    && (t.fragOpcode == OP_TEXT || t.fragOpcode == OP_BINARY)
    && (Untouched(frames, masked, k) ==>
          t.fragment == parts && (t.fragOpcode == opcode <==> SameKind(frames[..k], masked, opcode)))
    && (!Untouched(frames, masked, k) && Apart(frames, masked, message) ==> Bad(t.fragment, message, |parts|))
  }

  /** Frame k itself is of this side. */
  lemma {:induction false} UntouchedAtFirst(frames: seq<Frame>, masked: bool, k: nat)
    requires k == |frames| - 1 && frames[k].masked == masked
    ensures frames[..k] == Front(frames) && Undisturbed(frames[k..], masked)
    ensures Untouched(frames, masked, k) <==> Emptied(Front(frames), masked)
  {
    assert frames[k..] == [frames[k]];
  }

  /** The first byte comes behind what is in the buffer. */
  lemma {:induction false} FirstByteAfter(t: State, f: Frame, masked: bool, message: seq<byte>)
    requires f.opcode == OP_CONTINUATION && !f.fin
    ensures var u := FrameEmitted(t, f).0;
            && u.fragOpcode == t.fragOpcode
            && (t.fragment == [] ==> u.fragment == f.payload)
            && (t.fragment != [] && Foreign(t.fragment, message) ==> Bad(u.fragment, message, |f.payload|))
  {
    assert [] + f.payload == f.payload;
    if t.fragment != [] {
      assert t.fragment[0] in t.fragment && t.fragment[0] in t.fragment + f.payload;
    }
  }

  lemma {:induction false} AtFirstByte(s: State, frames: seq<Frame>, masked: bool, opcode: nat, message: seq<byte>, k: nat)
    requires Collecting(frames, masked, opcode) && 0 < k == |frames| - 1
    requires Silent(frames[..k], masked) && IsOwn(frames[k], masked)
    ensures Holds(EmitAll(s, frames).0, frames, masked, opcode, message, k)
  {
    var f, before := frames[k], Front(frames);
    UntouchedAtFirst(frames, masked, k);
    CollectingFront(frames, masked, opcode);
    BeforeFirstByte(s, before, masked, opcode);
    var t := EmitAll(s, before).0;
    FirstByteAfter(t, f, masked, message);
    if Apart(frames, masked, message) {
      assert Foreign(t.fragment, message) by {
        assert forall g | g in before :: g in frames;
        ForeignBefore(s, before, masked, opcode, message);
      }
    }
    assert Whole(Own(frames, masked)) == f.payload by {
      SilentIsEmpty(before, masked);
      OwnSplits(frames, masked);
      assert [] + f.payload == f.payload;
    }
  }

  lemma {:induction false} AtFirstFrame(s: State, frames: seq<Frame>, masked: bool, opcode: nat, message: seq<byte>)
    requires Collecting(frames, masked, opcode) && |frames| == 1
    ensures Holds(EmitAll(s, frames).0, frames, masked, opcode, message, 0)
  {
    UntouchedAtFirst(frames, masked, 0);
    StartsWith(s, frames, masked);
    assert Own(frames, masked)[0] == frames[0] && frames[..0] == [];
  }

  lemma {:induction false} UndisturbedMore(frames: seq<Frame>, masked: bool, k: nat)
    requires k < |frames| - 1
    ensures Front(frames)[..k] == frames[..k]
    ensures Undisturbed(frames[k..], masked)
            <==> Undisturbed(Front(frames)[k..], masked) && !(Last(frames).masked != masked && Disturbs(Last(frames)))
    ensures Untouched(frames, masked, k)
            <==> Untouched(Front(frames), masked, k) && !(Last(frames).masked != masked && Disturbs(Last(frames)))
  {
    var q, f := Front(frames)[k..], Last(frames);
    assert frames[k..] == q + [f];
    assert forall g :: g in q + [f] <==> g in q || g == f;
  }

  /** A frame that does not disturb adds what it has of the message. */
  lemma {:induction false} OneClean(t: State, f: Frame, masked: bool)
    requires !(f.masked != masked && Disturbs(f)) && (IsOwn(f, masked) ==> f.opcode == OP_CONTINUATION && !f.fin)
    ensures var u := FrameEmitted(t, f).0;
            && u.fragOpcode == t.fragOpcode
            && u.fragment == if IsOwn(f, masked) then t.fragment + f.payload else t.fragment
  {
    assert t.fragment + [] == t.fragment;
  }

  lemma {:induction false} FromFirstByte(s: State, frames: seq<Frame>, masked: bool, opcode: nat, message: seq<byte>, k: nat)
    requires Collecting(frames, masked, opcode) && k < |frames|
    requires Silent(frames[..k], masked) && IsOwn(frames[k], masked) && frames[k].payload != []
    ensures Holds(EmitAll(s, frames).0, frames, masked, opcode, message, k)
    ensures |Whole(Own(frames, masked))| > 0
  {
    var f, before := Last(frames), Front(frames);
    assert |Whole(Own(frames, masked))| == |Whole(Own(before, masked))| + if IsOwn(f, masked) then |f.payload| else 0 by {
      OwnSplits(frames, masked);
    }
    if |frames| == 1 {
      AtFirstFrame(s, frames, masked, opcode, message);
    } else if k == |frames| - 1 {
      AtFirstByte(s, frames, masked, opcode, message, k);
    } else {
      CollectingFront(frames, masked, opcode);
      FromFirstByte(s, before, masked, opcode, message, k);
      HoldsOneMore(s, frames, masked, opcode, message, k);
    }
  }

  lemma {:induction false} CleanOneMore(s: State, frames: seq<Frame>, masked: bool)
    requires frames != [] && !(Last(frames).masked != masked && Disturbs(Last(frames)))
    requires EmitAll(s, Front(frames)).0.fragment == Whole(Own(Front(frames), masked))
    requires IsOwn(Last(frames), masked) ==> Last(frames).opcode == OP_CONTINUATION && !Last(frames).fin
    ensures var t := EmitAll(s, frames).0;
            t.fragment == Whole(Own(frames, masked)) && t.fragOpcode == EmitAll(s, Front(frames)).0.fragOpcode
  {
    var f, before := Last(frames), Front(frames);
    OneClean(EmitAll(s, before).0, f, masked);
    OwnSplits(frames, masked);
    assert Whole(Own(before, masked)) + [] == Whole(Own(before, masked));
  }

  lemma {:induction false} BadOneMore(s: State, frames: seq<Frame>, masked: bool, opcode: nat, message: seq<byte>, k: nat)
    requires k < |frames| - 1 && !Untouched(frames, masked, k) && Apart(frames, masked, message)
    requires |Whole(Own(Front(frames), masked))| > 0
    requires Holds(EmitAll(s, Front(frames)).0, Front(frames), masked, opcode, message, k)
    requires IsOwn(Last(frames), masked) ==> Last(frames).opcode == OP_CONTINUATION && !Last(frames).fin
    ensures Bad(EmitAll(s, frames).0.fragment, message, |Whole(Own(frames, masked))|)
  {
    var f, before := Last(frames), Front(frames);
    UndisturbedMore(frames, masked, k);
    assert Apart(before, masked, message) && Apart([f], masked, message) by {
      assert f in frames && forall g | g in before :: g in frames;
    }
    OneMore(EmitAll(s, before).0, f, |Whole(Own(before, masked))|, masked, message);
    OwnSplits(frames, masked);
  }

  lemma {:induction false} HoldsOneMore(s: State, frames: seq<Frame>, masked: bool, opcode: nat, message: seq<byte>, k: nat)
    requires k < |frames| - 1 && |Whole(Own(Front(frames), masked))| > 0
    requires Holds(EmitAll(s, Front(frames)).0, Front(frames), masked, opcode, message, k)
    requires IsOwn(Last(frames), masked) ==> Last(frames).opcode == OP_CONTINUATION && !Last(frames).fin
    ensures Holds(EmitAll(s, frames).0, frames, masked, opcode, message, k)
  {
    if Untouched(frames, masked, k) {
      UndisturbedMore(frames, masked, k);
      CleanOneMore(s, frames, masked);
    } else if Apart(frames, masked, message) {
      BadOneMore(s, frames, masked, opcode, message, k);
    }
  }

  // ---- the last fragment --------------------------------------------------------------

  /** The last fragment gives the message with what is in the buffer. */
  lemma {:induction false} LastGives(s: State, frames: seq<Frame>, masked: bool, opcode: nat)
    requires OneMessage(frames, masked, opcode) && |frames| > 1
    ensures Collecting(Front(frames), masked, opcode)
    ensures var f, t := Last(frames), EmitAll(s, Front(frames)).0;
            && Whole(Own(frames, masked)) == Whole(Own(Front(frames), masked)) + f.payload
            && (Intact(s, frames, masked, opcode)
                <==> && t.fragment + f.payload == Whole(Own(frames, masked))
                     && (t.fragOpcode == OP_TEXT <==> opcode == OP_TEXT))
  {
    var f, own := Last(frames), Own(Front(frames), masked);
    OwnBegins(Front(frames), masked);
    OwnSplits(frames, masked);
    assert forall i | 0 <= i < |own| :: own[i] == Own(frames, masked)[i];
    assert f == Own(frames, masked)[|own|];
    var (t, events) := EmitAll(s, Front(frames));
    var more := FrameEmitted(t, f).1;
    assert Last(events + more) == more[0];
  }

  /** The message's first byte is in the last fragment, or it has none. */
  lemma {:induction false} IntactAtLast(s: State, frames: seq<Frame>, masked: bool, opcode: nat)
    requires OneMessage(frames, masked, opcode) && Silent(Front(frames), masked)
    ensures Intact(s, frames, masked, opcode) <==> Harmless(frames, masked, opcode, |frames| - 1)
  {
    UntouchedAtFirst(frames, masked, |frames| - 1);
    if |frames| == 1 {
      StartsWith(s, frames, masked);
      assert Own(frames, masked)[0].fin;
    } else {
      var t, f := EmitAll(s, Front(frames)).0, Last(frames);
      LastGives(s, frames, masked, opcode);
      BeforeFirstByte(s, Front(frames), masked, opcode);
      assert Whole(Own(frames, masked)) == f.payload by {
        SilentIsEmpty(Front(frames), masked);
        assert [] + f.payload == f.payload;
      }
      assert |t.fragment + f.payload| == |t.fragment| + |f.payload|;
    }
  }

  lemma {:induction false} IntactLater(s: State, frames: seq<Frame>, masked: bool, opcode: nat, k: nat)
    requires OneMessage(frames, masked, opcode) && IsFirstByte(frames, masked, k) && k < |frames| - 1
    ensures Harmless(frames, masked, opcode, k) ==> Intact(s, frames, masked, opcode)
    ensures Apart(frames, masked, Whole(Own(frames, masked))) ==>
              (Intact(s, frames, masked, opcode) <==> Harmless(frames, masked, opcode, k))
  {
    var message, before, f := Whole(Own(frames, masked)), Front(frames), Last(frames);
    LastGives(s, frames, masked, opcode);
    UndisturbedMore(frames, masked, k);
    assert before[k] == frames[k] && forall g | g in before :: g in frames;
    FromFirstByte(s, before, masked, opcode, message, k);
    var t := EmitAll(s, before).0;
    assert forall b | b in t.fragment :: b in t.fragment + f.payload;
  }

  lemma {:induction false} HarmlessIsIntact(s: State, frames: seq<Frame>, masked: bool, opcode: nat, k: nat)
    requires OneMessage(frames, masked, opcode) && IsFirstByte(frames, masked, k)
    ensures Harmless(frames, masked, opcode, k) ==> Intact(s, frames, masked, opcode)
    ensures Apart(frames, masked, Whole(Own(frames, masked))) ==>
              (Intact(s, frames, masked, opcode) <==> Harmless(frames, masked, opcode, k))
  {
    if k == |frames| - 1 {
      assert frames[..k] == Front(frames);
      IntactAtLast(s, frames, masked, opcode);
    } else {
      IntactLater(s, frames, masked, opcode, k);
    }
  }

  // ---- whatever the bytes -------------------------------------------------------------

  predicate SameShape(a: Frame, b: Frame) {
    a.(payload := []) == b.(payload := []) && |a.payload| == |b.payload|
  }

  /** The same frames with other bytes. */
  predicate SameShapes(a: seq<Frame>, b: seq<Frame>) {
    |a| == |b| && forall i | 0 <= i < |a| :: SameShape(a[i], b[i])
  }

  /** This side sends zeros and the other one ones. */
  function Painted(frames: seq<Frame>, masked: bool): seq<Frame> {
    seq(|frames|, i requires 0 <= i < |frames| =>
      frames[i].(payload := seq(|frames[i].payload|, _ => if frames[i].masked == masked then 0 else 1)))
  }

  lemma {:induction false} OwnShapes(a: seq<Frame>, b: seq<Frame>, masked: bool)
    requires SameShapes(a, b)
    ensures SameShapes(Own(a, masked), Own(b, masked))
  {
    if a != [] {
      OwnShapes(Front(a), Front(b), masked);
    }
  }

  lemma {:induction false} ShapesDecide(a: seq<Frame>, b: seq<Frame>, masked: bool, opcode: nat)
    requires SameShapes(a, b) && OneMessage(a, masked, opcode)
    ensures OneMessage(b, masked, opcode)
  {
    OwnShapes(a, b, masked);
    assert SameShape(Last(a), Last(b));
  }

  lemma {:induction false} EmptiedShapes(a: seq<Frame>, b: seq<Frame>, masked: bool)
    requires SameShapes(a, b) && Emptied(a, masked)
    ensures Emptied(b, masked)
  {
    forall i | 0 <= i < |b| && IsOther(b[i], masked) && Leaves(b[i])
      ensures EmptiedAfter(b, masked, i)
    {
      assert SameShape(a[i], b[i]) && EmptiedAfter(a, masked, i);
      var j :| i < j < |a| && IsOther(a[j], masked) && Empties(a[j]);
      assert SameShape(a[j], b[j]) && IsOther(b[j], masked) && Empties(b[j]);
    }
  }

  lemma {:induction false} KindShapes(a: seq<Frame>, b: seq<Frame>, masked: bool, opcode: nat)
    requires SameShapes(a, b) && SameKind(a, masked, opcode)
    ensures SameKind(b, masked, opcode)
  {
    forall i | 0 <= i < |b| && LastStart(b, masked, i)
      ensures b[i].opcode == opcode
    {
      assert SameShape(a[i], b[i]) && forall j | i < j < |a| :: SameShape(a[j], b[j]);
      assert LastStart(a, masked, i);
    }
  }

  lemma {:induction false} QuietShapes(a: seq<Frame>, b: seq<Frame>, masked: bool)
    requires SameShapes(a, b)
    ensures Silent(a, masked) ==> Silent(b, masked)
    ensures Undisturbed(a, masked) ==> Undisturbed(b, masked)
  {
    assert forall i | 0 <= i < |a| :: SameShape(a[i], b[i]) && a[i] in a;
  }

  lemma SlicedShapes(a: seq<Frame>, b: seq<Frame>, k: nat)
    requires SameShapes(a, b) && k < |a|
    ensures SameShapes(a[..k], b[..k]) && SameShapes(a[k..], b[k..]) && SameShape(a[k], b[k])
  {
  }

  lemma {:induction false} HarmlessShapes(a: seq<Frame>, b: seq<Frame>, masked: bool, opcode: nat, k: nat)
    requires SameShapes(a, b) && IsFirstByte(a, masked, k)
    ensures IsFirstByte(b, masked, k)
    ensures Harmless(a, masked, opcode, k) ==> Harmless(b, masked, opcode, k)
  {
    SlicedShapes(a, b, k);
    QuietShapes(a[..k], b[..k], masked);
    QuietShapes(a[k..], b[k..], masked);
    if Harmless(a, masked, opcode, k) {
      EmptiedShapes(a[..k], b[..k], masked);
      KindShapes(a[..k], b[..k], masked, opcode);
    }
  }

  lemma {:induction false} OwnZeros(frames: seq<Frame>, masked: bool)
    ensures 1 !in Whole(Own(Painted(frames, masked), masked))
  {
    if frames != [] {
      var p := Painted(frames, masked);
      assert Front(p) == Painted(Front(frames), masked);
      OwnZeros(Front(frames), masked);
      OwnSplits(p, masked);
    }
  }

  lemma {:induction false} PaintedApart(frames: seq<Frame>, masked: bool)
    ensures var p := Painted(frames, masked);
            SameShapes(p, frames) && SameShapes(frames, p) && Apart(p, masked, Whole(Own(p, masked)))
  {
    OwnZeros(frames, masked);
  }

  /** When the first fragment is not empty nothing that disturbs may come in between at all. */
  lemma {:induction false} HarmlessFromTheStart(frames: seq<Frame>, masked: bool, opcode: nat)
    requires frames != []
    ensures Harmless(frames, masked, opcode, 0) <==> Undisturbed(frames, masked)
  {
    assert frames[..0] == [] && frames[0..] == frames;
  }

  /**
   * A message of one side comes out intact whatever the bytes are if and only if: up to its
   * first byte, what the other side puts into the buffer is out again and the kind of message
   * it last began is the same; and from its first byte to its last fragment the other side
   * sends no text or binary frame, no final continuation frame and none with a payload. If the
   * first fragment is not empty only the second part is left. It does not matter what the flow
   * did before.
   */
  lemma {:induction false} IntactIff(s: State, frames: seq<Frame>, masked: bool, opcode: nat)
    requires OneMessage(frames, masked, opcode)
    ensures Harmless(frames, masked, opcode, FirstByte(frames, masked, 0))
            <==> forall other | SameShapes(frames, other) :: Intact(s, other, masked, opcode)
    ensures frames[0].payload != [] ==>
              (Undisturbed(frames, masked) <==> forall other | SameShapes(frames, other) :: Intact(s, other, masked, opcode))
  {
    var k := FirstByte(frames, masked, 0);
    HarmlessFromTheStart(frames, masked, opcode);
    if Harmless(frames, masked, opcode, k) {
      forall other | SameShapes(frames, other)
        ensures Intact(s, other, masked, opcode)
      {
        ShapesDecide(frames, other, masked, opcode);
        HarmlessShapes(frames, other, masked, opcode, k);
        HarmlessIsIntact(s, other, masked, opcode, k);
      }
    } else {
      var p := Painted(frames, masked);
      PaintedApart(frames, masked);
      ShapesDecide(frames, p, masked, opcode);
      HarmlessShapes(frames, p, masked, opcode, k);
      HarmlessShapes(p, frames, masked, opcode, k);
      HarmlessIsIntact(s, p, masked, opcode, k);
      assert !Intact(s, p, masked, opcode);
    }
  }

  /** With the bytes at hand: as long as the two sides' bytes differ, the same holds of this message. */
  lemma {:induction false} IntactAsSentIff(s: State, frames: seq<Frame>, masked: bool, opcode: nat)
    requires OneMessage(frames, masked, opcode)
    ensures Harmless(frames, masked, opcode, FirstByte(frames, masked, 0)) ==> Intact(s, frames, masked, opcode)
    ensures Apart(frames, masked, Whole(Own(frames, masked))) ==>
              (Intact(s, frames, masked, opcode) <==> Harmless(frames, masked, opcode, FirstByte(frames, masked, 0)))
  {
    HarmlessIsIntact(s, frames, masked, opcode, FirstByte(frames, masked, 0));
  }
}
