/**
 * examples/lp-decoder and examples/lp-decoder-v2: length-prefixed frames whose length
 * field has 1, 2 or 4 bytes in either byte order, as the frame's own header says.
 *
 *   0x4C, 1, param, 0, length field, payload
 */
module LengthPrefixed {
  import opened ByteOrder
  import opened Packets
  import opened Seqs
  import opened StreamParser

  const MAGIC: byte := 0x4C
  const VERSION: byte := 1
  const HEADER_SIZE := 4

  /** lp-decoder rejects longer payloads. */
  const MAX_PAYLOAD_BYTES := 0x100_0000

  /** lp-decoder drops a buffer longer than this. */
  const MAX_STREAM_BYTES := 4 * 1024 * 1024

  datatype Frame = Frame(little: bool, width: nat, payload: seq<byte>)

  // ---- the header ---------------------------------------------------------------------

  function Param(little: bool, width: nat): byte {
    (if little then 128 else 0) + (if width == 4 then 16 else if width == 2 then 8 else 0)
  }

  predicate LittleBit(param: byte) {
    param / 128 == 1
  }

  function WidthCode(param: byte): nat {
    param / 8 % 4
  }

  function WidthOf(code: nat): nat {
    if code == 0 then 1 else if code == 1 then 2 else 4
  }

  /** The mask 0x67: bits 6, 5, 2, 1 and 0. */
  predicate ReservedBits(param: byte) {
    param / 32 % 4 != 0 || param % 8 != 0
  }

  predicate ValidFrame(f: Frame) {
    (f.width == 1 || f.width == 2 || f.width == 4) && |f.payload| < Power(f.width)
  }

  function Encode(f: Frame): (buf: seq<byte>)
    ensures |buf| == HEADER_SIZE + f.width + |f.payload|
  {
    [MAGIC, VERSION, Param(f.little, f.width), 0] + PutField(|f.payload|, f.width, f.little) + f.payload
  }

  function Size(f: Frame): nat {
    HEADER_SIZE + f.width + |f.payload|
  }

  /** The frame behind a good header, once all of it has arrived; `tail` follows the header. */
  function Body(param: byte, tail: seq<byte>, maxPayload: nat): Outcome<Frame> {
    var little, width := LittleBit(param), WidthOf(WidthCode(param));
    if |tail| < width then Wait
    else
      var length := Field(tail[..width], little);
      if length > maxPayload || |tail| < width + length then Wait
      else Framed(Frame(little, width, tail[width..width + length]), HEADER_SIZE + width + length)
  }

  /** lp-decoder: anything that is not a complete frame waits, a foreign protocol too. */
  function ParseFrame(buf: seq<byte>): Outcome<Frame> {
    if |buf| < HEADER_SIZE then Wait
    else if buf[0] != MAGIC || buf[1] != VERSION || buf[3] != 0 then Wait
    else if WidthCode(buf[2]) > 2 then Wait
    else Body(buf[2], buf[HEADER_SIZE..], MAX_PAYLOAD_BYTES)
  }

  /** lp-decoder-v2: a bad header is skipped one byte at a time; any length is accepted. */
  function ParseFrameV2(buf: seq<byte>): Outcome<Frame> {
    if |buf| < HEADER_SIZE then Wait
    else if buf[0] != MAGIC || buf[1] != VERSION || buf[3] != 0 then Skip(1)
    else if ReservedBits(buf[2]) || WidthCode(buf[2]) > 2 then Skip(1)
    else Body(buf[2], buf[HEADER_SIZE..], 0xFFFF_FFFF)
  }

  // ---- encoding and parsing are inverse -----------------------------------------------

  lemma ParamRoundTrip(little: bool, width: nat)
    requires width == 1 || width == 2 || width == 4
    ensures var p := Param(little, width);
            LittleBit(p) == little && WidthCode(p) <= 2 && WidthOf(WidthCode(p)) == width && !ReservedBits(p)
  {
  }

  lemma ParamDetermined(p: byte)
    requires !ReservedBits(p) && WidthCode(p) <= 2
    ensures p == Param(LittleBit(p), WidthOf(WidthCode(p)))
  {
  }

  function Tail(f: Frame): seq<byte> {
    PutField(|f.payload|, f.width, f.little) + f.payload
  }

  lemma {:induction false} BodyOfEncoded(param: byte, f: Frame, rest: seq<byte>, maxPayload: nat)
    requires ValidFrame(f) && |f.payload| <= maxPayload
    requires LittleBit(param) == f.little && WidthOf(WidthCode(param)) == f.width
    ensures Body(param, Tail(f) + rest, maxPayload) == Framed(f, Size(f))
  {
    FieldRoundTrip(|f.payload|, f.width, f.little);
    assert (Tail(f) + rest)[..f.width] == PutField(|f.payload|, f.width, f.little);
    assert (Tail(f) + rest)[f.width..f.width + |f.payload|] == f.payload;
  }

  /** Whatever follows it, an encoded frame parses to itself and its exact length. */
  lemma ParseInvertsEncode(f: Frame, rest: seq<byte>)
    requires ValidFrame(f) && |f.payload| <= MAX_PAYLOAD_BYTES
    ensures ParseFrame(Encode(f) + rest) == Framed(f, |Encode(f)|)
  {
    ParamRoundTrip(f.little, f.width);
    assert (Encode(f) + rest)[HEADER_SIZE..] == Tail(f) + rest;
    BodyOfEncoded(Param(f.little, f.width), f, rest, MAX_PAYLOAD_BYTES);
  }

  lemma {:induction false} BodyIsEncoded(param: byte, tail: seq<byte>, maxPayload: nat)
    requires WidthCode(param) <= 2 && Body(param, tail, maxPayload).Framed?
    ensures var Framed(f, n) := Body(param, tail, maxPayload);
            && ValidFrame(f) && |f.payload| <= maxPayload && n == Size(f) && Tail(f) <= tail
            && f.little == LittleBit(param) && f.width == WidthOf(WidthCode(param))
  {
    var Framed(f, n) := Body(param, tail, maxPayload);
    FieldDetermines(tail[..f.width], f.little);
  }

  lemma {:induction false} HeaderAndTail(buf: seq<byte>, f: Frame)
    requires |buf| >= HEADER_SIZE && buf[0] == MAGIC && buf[1] == VERSION && buf[3] == 0
    ensures Tail(f) <= buf[HEADER_SIZE..] <==> |Encode(f)| <= |buf| && buf[..|Encode(f)|] == Encode(f)[2 := buf[2]]
  {
    var n := |Encode(f)|;
    if n <= |buf| {
      assert buf[..n][HEADER_SIZE..] == buf[HEADER_SIZE..][..|Tail(f)|];
      assert Encode(f)[2 := buf[2]][HEADER_SIZE..] == Tail(f);
      if Tail(f) <= buf[HEADER_SIZE..] {
        assert buf[..n] == buf[..HEADER_SIZE] + buf[..n][HEADER_SIZE..];
        assert Encode(f)[2 := buf[2]] == buf[..HEADER_SIZE] + Tail(f);
      }
    }
  }

  /**
   * lp-decoder-v2 accepts exactly the encoded frames, whatever follows them. (The comment
   * beside the mask leaves out bit 5; the mask checks it.)
   */
  lemma ParseV2Iff(buf: seq<byte>, f: Frame, n: nat)
    ensures ParseFrameV2(buf) == Framed(f, n)
            <==> ValidFrame(f) && n == |Encode(f)| <= |buf| && buf[..n] == Encode(f)
  {
    if ParseFrameV2(buf) == Framed(f, n) {
      BodyIsEncoded(buf[2], buf[HEADER_SIZE..], 0xFFFF_FFFF);
      HeaderAndTail(buf, f);
      ParamDetermined(buf[2]);
    } else if ValidFrame(f) && n == |Encode(f)| <= |buf| && buf[..n] == Encode(f) {
      EncodedHeader(buf, f);
      PayloadFitsField(f);
      BodyOfEncoded(buf[2], f, buf[n..], 0xFFFF_FFFF);
    }
  }

  lemma {:induction false} EncodedHeader(buf: seq<byte>, f: Frame)
    requires ValidFrame(f) && |Encode(f)| <= |buf| && buf[..|Encode(f)|] == Encode(f)
    ensures buf[0] == MAGIC && buf[1] == VERSION && buf[3] == 0 && buf[2] == Param(f.little, f.width)
    ensures LittleBit(buf[2]) == f.little && WidthOf(WidthCode(buf[2])) == f.width
    ensures WidthCode(buf[2]) <= 2 && !ReservedBits(buf[2])
    ensures buf[HEADER_SIZE..] == Tail(f) + buf[|Encode(f)|..]
  {
    var n := |Encode(f)|;
    ParamRoundTrip(f.little, f.width);
    assert forall i | 0 <= i < 4 :: buf[i] == buf[..n][i];
    assert buf == Encode(f) + buf[n..];
    assert (Encode(f) + buf[n..])[HEADER_SIZE..] == Tail(f) + buf[n..];
  }

  lemma PayloadFitsField(f: Frame)
    requires ValidFrame(f)
    ensures |f.payload| <= 0xFFFF_FFFF
  {
    assert Power(4) == 0x1_0000_0000 && Power(2) == 0x1_0000 && Power(1) == 0x100;
  }

  /**
   * lp-decoder accepts the encoded frames of up to 16 MiB, and those that differ from them
   * only in the reserved bits of the parameter byte: the format says they must be zero, the
   * parser does not look at them.
   */
  lemma ParseIff(buf: seq<byte>, f: Frame, n: nat)
    requires |buf| >= HEADER_SIZE
    ensures ParseFrame(buf) == Framed(f, n)
            <==> && ValidFrame(f) && |f.payload| <= MAX_PAYLOAD_BYTES
                 && LittleBit(buf[2]) == f.little && WidthCode(buf[2]) == WidthCode(Param(f.little, f.width))
                 && n == |Encode(f)| <= |buf| && buf[..n] == Encode(f)[2 := buf[2]]
  {
    if ParseFrame(buf) == Framed(f, n) {
      BodyIsEncoded(buf[2], buf[HEADER_SIZE..], MAX_PAYLOAD_BYTES);
      HeaderAndTail(buf, f);
      ParamRoundTrip(f.little, f.width);
    } else if && ValidFrame(f) && |f.payload| <= MAX_PAYLOAD_BYTES
              && LittleBit(buf[2]) == f.little && WidthCode(buf[2]) == WidthCode(Param(f.little, f.width))
              && n == |Encode(f)| <= |buf| && buf[..n] == Encode(f)[2 := buf[2]] {
      ParamRoundTrip(f.little, f.width);
      assert forall i | 0 <= i < 4 :: buf[i] == buf[..n][i];
      HeaderAndTail(buf, f);
      var rest := buf[HEADER_SIZE..][|Tail(f)|..];
      assert buf[HEADER_SIZE..] == Tail(f) + rest;
      BodyOfEncoded(buf[2], f, rest, MAX_PAYLOAD_BYTES);
    }
  }

  // ---- both parsers on a stream -------------------------------------------------------

  lemma {:induction false} BodyIsStable(param: byte, tail: seq<byte>, more: seq<byte>, maxPayload: nat)
    requires Body(param, tail, maxPayload).Framed?
    ensures Body(param, tail + more, maxPayload) == Body(param, tail, maxPayload)
  {
    var width := WidthOf(WidthCode(param));
    assert (tail + more)[..width] == tail[..width];
    var length := Field(tail[..width], LittleBit(param));
    assert (tail + more)[width..width + length] == tail[width..width + length];
  }

  lemma ParserIsStable()
    ensures Stable(ParseFrame) && Sized(ParseFrame, Size)
  {
    forall buf, more | ParseFrame(buf).Framed?
      ensures ParseFrame(buf + more) == ParseFrame(buf)
    {
      assert (buf + more)[HEADER_SIZE..] == buf[HEADER_SIZE..] + more;
      BodyIsStable(buf[2], buf[HEADER_SIZE..], more, MAX_PAYLOAD_BYTES);
    }
  }

  lemma ParserV2IsStable()
    ensures Stable(ParseFrameV2)
  {
    forall buf, more | !ParseFrameV2(buf).Wait?
      ensures ParseFrameV2(buf + more) == ParseFrameV2(buf)
    {
      assert (buf + more)[HEADER_SIZE..] == buf[HEADER_SIZE..] + more;
      if ParseFrameV2(buf).Framed? {
        BodyIsStable(buf[2], buf[HEADER_SIZE..], more, 0xFFFF_FFFF);
      }
    }
  }

  /** Frames written one after the other. */
  function EncodeAll(frames: seq<Frame>): seq<byte> {
    if frames == [] then [] else Encode(frames[0]) + EncodeAll(frames[1..])
  }

  ghost predicate AllValid(frames: seq<Frame>) {
    forall f | f in frames :: ValidFrame(f) && |f.payload| <= MAX_PAYLOAD_BYTES
  }

  lemma {:induction false} DrainEncoded(frames: seq<Frame>)
    requires Stable(ParseFrame) && AllValid(frames)
    ensures Drain(ParseFrame, EncodeAll(frames)) == Drained(frames, [])
  {
    if frames != [] {
      var buf := EncodeAll(frames);
      ParseInvertsEncode(frames[0], EncodeAll(frames[1..]));
      assert buf[|Encode(frames[0])|..] == EncodeAll(frames[1..]);
      DrainEncoded(frames[1..]);
    }
  }

  lemma {:induction false} DrainEncodedV2(frames: seq<Frame>)
    requires Stable(ParseFrameV2) && forall f | f in frames :: ValidFrame(f)
    ensures Drain(ParseFrameV2, EncodeAll(frames)) == Drained(frames, [])
  {
    if frames != [] {
      var buf := EncodeAll(frames);
      var n := |Encode(frames[0])|;
      assert buf[..n] == Encode(frames[0]) && buf[n..] == EncodeAll(frames[1..]);
      ParseV2Iff(buf, frames[0], n);
      DrainEncodedV2(frames[1..]);
    }
  }

  /**
   * lp-decoder recovers what was written, cut into segments in any way, if and only if no
   * segment takes the buffer over 4 MiB.
   */
  lemma FramesSurviveSegmentationIff(frames: seq<Frame>, segments: seq<seq<byte>>)
    requires AllValid(frames) && Concat(segments) == EncodeAll(frames)
    ensures Stable(ParseFrame)
    ensures Feed(ParseFrame, MAX_STREAM_BYTES, segments) == Drained(frames, [])
            <==> Fits(ParseFrame, MAX_STREAM_BYTES, segments)
  {
    ParserIsStable();
    DrainEncoded(frames);
    SegmentationMattersIff(ParseFrame, Size, MAX_STREAM_BYTES, segments);
  }

  /** lp-decoder-v2 has no cap: it recovers what was written however it was cut. */
  lemma FramesSurviveSegmentationV2(frames: seq<Frame>, segments: seq<seq<byte>>)
    requires (forall f | f in frames :: ValidFrame(f)) && Concat(segments) == EncodeAll(frames)
    ensures Stable(ParseFrameV2)
    ensures FeedAll(ParseFrameV2, segments) == Drained(frames, [])
  {
    ParserV2IsStable();
    DrainEncodedV2(frames);
    UncappedSegmentation(ParseFrameV2, segments);
  }

  // ---- the decoders -------------------------------------------------------------------

  /** examples/lp-decoder/decode.go: the buffer of one direction of a flow. */
  class Flow {
    var buf: seq<byte>

    constructor ()
      ensures buf == []
    {
      buf := [];
    }

    method Consume(n: nat)
      requires n <= |buf|
      modifies this
      ensures buf == old(buf)[n..]
    {
      buf := buf[n..];
    }

    method Decode(segment: seq<byte>) returns (frames: seq<Frame>)
      modifies this
      ensures Stable(ParseFrame)
      ensures Drained(frames, buf) == DrainCapped(ParseFrame, MAX_STREAM_BYTES, old(buf) + segment)
    {
      ParserIsStable();
      frames, buf := [], buf + segment;
      ghost var goal := DrainCapped(ParseFrame, MAX_STREAM_BYTES, buf);
      while buf != []
        invariant var d := DrainCapped(ParseFrame, MAX_STREAM_BYTES, buf);
                  goal == Drained(frames + d.frames, d.rest)
        decreases |buf|
      {
        if |buf| > MAX_STREAM_BYTES {
          Consume(|buf|);
          break;
        }
        var o := ParseFrame(buf);
        if o.Wait? {
          break;
        }
        TakeOne(ParseFrame, MAX_STREAM_BYTES, frames, buf);
        frames := frames + [o.frame];
        Consume(o.n);
      }
    }
  }

  /** examples/lp-decoder-v2/main.go, decodePacket: one direction of a flow. */
  class FlowV2 {
    var buf: seq<byte>

    constructor ()
      ensures buf == []
    {
      buf := [];
    }

    method Consume(n: nat)
      requires n <= |buf|
      modifies this
      ensures buf == old(buf)[n..]
    {
      buf := buf[n..];
    }

    method Decode(segment: seq<byte>) returns (frames: seq<Frame>)
      modifies this
      ensures Stable(ParseFrameV2)
      ensures Drained(frames, buf) == Drain(ParseFrameV2, old(buf) + segment)
    {
      ParserV2IsStable();
      frames, buf := [], buf + segment;
      ghost var goal := Drain(ParseFrameV2, buf);
      while true
        invariant var d := Drain(ParseFrameV2, buf);
                  goal == Drained(frames + d.frames, d.rest)
        decreases |buf|
      {
        var o := ParseFrameV2(buf);
        if o.Wait? {
          break;
        }
        TakeOneUncapped(ParseFrameV2, frames, buf);
        if o.Framed? {
          frames := frames + [o.frame];
        }
        Consume(o.n);
      }
    }
  }
}
