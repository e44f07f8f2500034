/**
 * examples/ws-decoder/frame.go: WebSocket frames, sections 5.2 and 5.3 of RFC 6455. The
 * parser unmasks the payload; it ignores the three reserved bits and accepts a length in
 * any of its three forms, not only the shortest.
 */
module WebSocketFrame {
  import opened ByteOrder
  import opened Packets
  import opened Seqs
  import opened StreamParser

  const MAX_LENGTH := 0x4000_0000

  datatype Frame = Frame(opcode: nat, fin: bool, masked: bool, payload: seq<byte>)

  /** What is on the wire besides the frame: reserved bits, length form, masking key. */
  datatype Wire = Wire(reserved: nat, form: Form, key: seq<byte>)

  datatype Form = InSeven | InSixteen | InSixtyFour

  // ---- masking ------------------------------------------------------------------------

  /** Exclusive or of the low `bits` bits. */
  function Xor(a: nat, b: nat, bits: nat): (x: nat)
    ensures bits == 8 && a < 256 && b < 256 ==> x < 256
  {
    XorBelow(a, b, bits);
    XorBits(a, b, bits)
  }

  function XorBits(a: nat, b: nat, bits: nat): nat {
    if bits == 0 then 0 else (a + b) % 2 + 2 * XorBits(a / 2, b / 2, bits - 1)
  }

  function TwoTo(bits: nat): nat {
    if bits == 0 then 1 else 2 * TwoTo(bits - 1)
  }

  lemma {:induction false} XorBelow(a: nat, b: nat, bits: nat)
    ensures XorBits(a, b, bits) < TwoTo(bits)
    ensures bits == 8 ==> TwoTo(bits) == 256
  {
    if bits > 0 {
      XorBelow(a / 2, b / 2, bits - 1);
    }
    assert TwoTo(8) == 2 * TwoTo(7) == 4 * TwoTo(6) == 8 * TwoTo(5) == 16 * TwoTo(4) == 32 * TwoTo(3);
  }

  lemma LowBit(a: nat, b: nat, high: nat)
    ensures var x := (a + b) % 2 + 2 * high;
            x / 2 == high && (x + b) % 2 == a % 2 && a == a % 2 + 2 * (a / 2)
  {
  }

  lemma {:induction false} XorTwice(a: nat, b: nat, bits: nat)
    requires a < TwoTo(bits)
    ensures XorBits(XorBits(a, b, bits), b, bits) == a
  {
    if bits > 0 {
      XorTwice(a / 2, b / 2, bits - 1);
      LowBit(a, b, XorBits(a / 2, b / 2, bits - 1));
    }
  }

  function Unmask(payload: seq<byte>, key: seq<byte>): (s: seq<byte>)
    requires |key| == 4
    ensures |s| == |payload|
  {
    seq(|payload|, i requires 0 <= i < |payload| => Xor(payload[i], key[i % 4], 8))
  }

  /** Masking and unmasking are the same operation. */
  lemma {:induction false} UnmaskTwice(payload: seq<byte>, key: seq<byte>)
    requires |key| == 4
    ensures Unmask(Unmask(payload, key), key) == payload
  {
    var s := Unmask(payload, key);
    forall i | 0 <= i < |payload|
      ensures Unmask(s, key)[i] == payload[i]
    {
      XorBelow(0, 0, 8);
      XorTwice(payload[i], key[i % 4], 8);
    }
  }

  // ---- the frame on the wire ----------------------------------------------------------

  function FormOf(code: nat): Form {
    if code == 127 then InSixtyFour else if code == 126 then InSixteen else InSeven
  }

  /** The seven bits in the second byte. */
  function Code(form: Form, length: nat): nat {
    match form
    case InSeven => length
    case InSixteen => 126
    case InSixtyFour => 127
  }

  function Extra(form: Form): nat {
    match form
    case InSeven => 0
    case InSixteen => 2
    case InSixtyFour => 8
  }

  predicate ValidFrame(f: Frame, w: Wire) {
    && f.opcode < 16 && w.reserved < 8 && |w.key| == (if f.masked then 4 else 0)
    && |f.payload| <= MAX_LENGTH
    && match w.form
       case InSeven => |f.payload| < 126
       case InSixteen => |f.payload| < 0x1_0000
       case InSixtyFour => true
  }

  function FirstByte(f: Frame, w: Wire): byte
    requires ValidFrame(f, w)
  {
    (if f.fin then 128 else 0) + 16 * w.reserved + f.opcode
  }

  function SecondByte(f: Frame, w: Wire): byte
    requires ValidFrame(f, w)
  {
    (if f.masked then 128 else 0) + Code(w.form, |f.payload|)
  }

  function LengthField(f: Frame, w: Wire): seq<byte> {
    PutBig(|f.payload|, Extra(w.form))
  }

  function Data(f: Frame, w: Wire): seq<byte>
    requires ValidFrame(f, w)
  {
    if f.masked then Unmask(f.payload, w.key) else f.payload
  }

  function Tail(f: Frame, w: Wire): (s: seq<byte>)
    requires ValidFrame(f, w)
    ensures |s| == Size(f, w) - 2
  {
    LengthField(f, w) + w.key + Data(f, w)
  }

  function Encode(f: Frame, w: Wire): (buf: seq<byte>)
    requires ValidFrame(f, w)
    ensures |buf| == Size(f, w)
  {
    [FirstByte(f, w), SecondByte(f, w)] + Tail(f, w)
  }

  /** The exact size of the frame: header, key and payload. */
  function Size(f: Frame, w: Wire): nat {
    2 + Extra(w.form) + |w.key| + |f.payload|
  }

  // ---- the parser ---------------------------------------------------------------------

  function Length(code: nat, field: seq<byte>): nat {
    if code < 126 then code else Big(field)
  }

  datatype Header = Header(opcode: nat, fin: bool, masked: bool)

  /** The key, if any, and the payload; `before` bytes came first. */
  function Body(h: Header, length: nat, before: nat, t: seq<byte>): Outcome<Frame> {
    var k := if h.masked then 4 else 0;
    if length > MAX_LENGTH || |t| < k + length then Wait
    else
      var data := t[k..k + length];
      Framed(Frame(h.opcode, h.fin, h.masked, if h.masked then Unmask(data, t[..k]) else data), before + k + length)
  }

  /** The part after the two fixed bytes; `code` are the low seven bits of the second one. */
  function Rest(h: Header, code: nat, tail: seq<byte>): Outcome<Frame> {
    var extra := Extra(FormOf(code));
    if |tail| < extra then Wait
    else Body(h, Length(code, tail[..extra]), 2 + extra, tail[extra..])
  }

  function HeaderOf(first: byte, second: byte): Header {
    Header(first % 16, first >= 128, second >= 128)
  }

  function ParseFrame(buf: seq<byte>): Outcome<Frame> {
    if |buf| < 2 then Wait
    else Rest(HeaderOf(buf[0], buf[1]), buf[1] % 128, buf[2..])
  }

  // ---- encoding and parsing are inverse -----------------------------------------------

  lemma {:induction false} FieldIsLength(f: Frame, w: Wire)
    requires ValidFrame(f, w)
    ensures Length(Code(w.form, |f.payload|), LengthField(f, w)) == |f.payload|
    ensures FormOf(Code(w.form, |f.payload|)) == w.form
  {
    var n := |f.payload|;
    if w.form != InSeven {
      PowersOf256();
      FieldRoundTrip(n, Extra(w.form), false);
    }
  }

  lemma PowersOf256()
    ensures Power(2) == 0x1_0000 && Power(4) == 0x1_0000_0000 && Power(8) == 0x1_0000_0000_0000_0000
  {
    assert Power(8) == 256 * Power(7) == 0x1_0000 * Power(6) == 0x100_0000 * Power(5) == 0x1_0000_0000 * Power(4);
  }

  lemma {:induction false} BodyOfEncoded(f: Frame, w: Wire, before: nat, rest: seq<byte>)
    requires ValidFrame(f, w)
    ensures Body(Header(f.opcode, f.fin, f.masked), |f.payload|, before, w.key + Data(f, w) + rest)
         == Framed(f, before + |w.key| + |f.payload|)
  {
    var t, k := w.key + Data(f, w) + rest, |w.key|;
    assert t[..k] == w.key && t[k..k + |f.payload|] == Data(f, w);
    if f.masked {
      UnmaskTwice(f.payload, w.key);
    }
  }

  lemma {:induction false} RestOfEncoded(f: Frame, w: Wire, rest: seq<byte>)
    requires ValidFrame(f, w)
    ensures Rest(Header(f.opcode, f.fin, f.masked), Code(w.form, |f.payload|), Tail(f, w) + rest) == Framed(f, Size(f, w))
  {
    var tail, extra := Tail(f, w) + rest, Extra(w.form);
    FieldIsLength(f, w);
    assert tail[..extra] == LengthField(f, w) && tail[extra..] == w.key + Data(f, w) + rest;
    BodyOfEncoded(f, w, 2 + extra, rest);
  }

  lemma FixedBytes(f: Frame, w: Wire)
    requires ValidFrame(f, w)
    ensures HeaderOf(FirstByte(f, w), SecondByte(f, w)) == Header(f.opcode, f.fin, f.masked)
    ensures SecondByte(f, w) % 128 == Code(w.form, |f.payload|)
  {
  }

  /**
   * Every frame of up to 2^30 bytes, masked or not, in every length form that has room for
   * it, parses to itself and its exact size, whatever follows.
   */
  lemma {:induction false} ParseInvertsEncode(f: Frame, w: Wire, rest: seq<byte>)
    requires ValidFrame(f, w)
    ensures ParseFrame(Encode(f, w) + rest) == Framed(f, |Encode(f, w)|)
  {
    var buf := Encode(f, w) + rest;
    assert buf == [FirstByte(f, w), SecondByte(f, w)] + (Tail(f, w) + rest) by {
      Associates([FirstByte(f, w), SecondByte(f, w)], Tail(f, w), rest);
    }
    FixedBytes(f, w);
    assert Rest(HeaderOf(buf[0], buf[1]), buf[1] % 128, Tail(f, w) + rest) == Framed(f, Size(f, w)) by {
      RestOfEncoded(f, w, rest);
    }
    ParseInTwo(buf, FirstByte(f, w), SecondByte(f, w), Tail(f, w) + rest);
  }

  lemma ParseInTwo(buf: seq<byte>, first: byte, second: byte, tail: seq<byte>)
    requires buf == [first, second] + tail
    ensures ParseFrame(buf) == Rest(HeaderOf(first, second), second % 128, tail)
  {
    assert buf[2..] == tail;
  }

  /** The wire facts of an accepted buffer that the frame does not carry. */
  function WireOf(buf: seq<byte>): Wire
    requires |buf| >= 2
  {
    var form := FormOf(buf[1] % 128);
    var t := if |buf| < 2 + Extra(form) then [] else buf[2..][Extra(form)..];
    Wire(buf[0] / 16 % 8, form, if buf[1] >= 128 && |t| >= 4 then t[..4] else [])
  }

  lemma {:induction false} BodyIsEncoded(h: Header, length: nat, before: nat, t: seq<byte>)
    requires Body(h, length, before, t).Framed?
    ensures var Framed(f, n) := Body(h, length, before, t);
            var key := if h.masked then t[..4] else [];
            && Header(f.opcode, f.fin, f.masked) == h
            && |f.payload| == length <= MAX_LENGTH && n == before + |key| + length
            && key + (if f.masked then Unmask(f.payload, key) else f.payload) <= t
  {
    var k := if h.masked then 4 else 0;
    if h.masked {
      UnmaskTwice(t[k..k + length], t[..k]);
    }
    assert t[..k + length] == t[..k] + t[k..k + length];
  }

  lemma {:induction false} LengthIsEncoded(code: nat, field: seq<byte>)
    requires code < 128 && |field| == Extra(FormOf(code)) && Length(code, field) <= MAX_LENGTH
    ensures var n, form := Length(code, field), FormOf(code);
            && Code(form, n) == code && PutBig(n, Extra(form)) == field
            && (form == InSeven ==> n < 126) && (form == InSixteen ==> n < 0x1_0000)
  {
    FieldDetermines(field, false);
    PowersOf256();
  }

  lemma {:induction false} RestIsEncoded(h: Header, code: nat, tail: seq<byte>, w: Wire)
    requires h.opcode < 16 && code < 128 && Rest(h, code, tail).Framed?
    requires w.form == FormOf(code) && w.reserved < 8
    requires w.key == if h.masked then tail[Extra(w.form)..][..4] else []
    ensures var Framed(f, n) := Rest(h, code, tail);
            && ValidFrame(f, w) && n == Size(f, w) && Header(f.opcode, f.fin, f.masked) == h
            && Code(w.form, |f.payload|) == code
            && Tail(f, w) <= tail
  {
    var extra := Extra(w.form);
    var length := Length(code, tail[..extra]);
    var t := tail[extra..];
    var Framed(f, n) := Body(h, length, 2 + extra, t);
    assert Rest(h, code, tail) == Framed(f, n);
    var data := if f.masked then Unmask(f.payload, w.key) else f.payload;
    assert Header(f.opcode, f.fin, f.masked) == h && |f.payload| == length <= MAX_LENGTH
           && n == 2 + extra + |w.key| + length && w.key + data <= t by {
      BodyIsEncoded(h, length, 2 + extra, t);
    }
    LengthIsEncoded(code, tail[..extra]);
    assert ValidFrame(f, w);
    assert Tail(f, w) == tail[..extra] + (w.key + data) by {
      Associates(tail[..extra], w.key, data);
    }
    PrefixInParts(tail, extra, w.key + data);
  }

  lemma PrefixInParts(s: seq<byte>, k: nat, t: seq<byte>)
    requires k <= |s| && t <= s[k..]
    ensures s[..k] + t <= s
  {
  }

  lemma BytesDetermined(first: byte, second: byte, f: Frame, w: Wire)
    requires ValidFrame(f, w) && Header(f.opcode, f.fin, f.masked) == HeaderOf(first, second)
    requires w.reserved == first / 16 % 8 && Code(w.form, |f.payload|) == second % 128
    ensures FirstByte(f, w) == first && SecondByte(f, w) == second
  {
  }

  /** Nothing else is accepted: a frame that was parsed is the encoding of what was parsed. */
  lemma {:induction false} ParsedIsEncoded(buf: seq<byte>)
    requires ParseFrame(buf).Framed?
    ensures var Framed(f, n) := ParseFrame(buf);
            var w := WireOf(buf);
            ValidFrame(f, w) && n == |Encode(f, w)| && Encode(f, w) <= buf
  {
    var Framed(f, n) := ParseFrame(buf);
    var w := WireOf(buf);
    var h := HeaderOf(buf[0], buf[1]);
    assert ValidFrame(f, w) && n == Size(f, w) && Header(f.opcode, f.fin, f.masked) == h
           && Code(w.form, |f.payload|) == buf[1] % 128 && Tail(f, w) <= buf[2..] by {
      RestIsEncoded(h, buf[1] % 128, buf[2..], w);
    }
    BytesDetermined(buf[0], buf[1], f, w);
    assert buf[..2] == [FirstByte(f, w), SecondByte(f, w)];
    assert buf[..2] + Tail(f, w) <= buf by {
      PrefixInParts(buf, 2, Tail(f, w));
    }
  }

  lemma {:induction false} BodyIsStable(h: Header, length: nat, before: nat, t: seq<byte>, more: seq<byte>)
    requires Body(h, length, before, t).Framed?
    ensures Body(h, length, before, t + more) == Body(h, length, before, t)
  {
    var k := if h.masked then 4 else 0;
    assert (t + more)[k..k + length] == t[k..k + length] && (t + more)[..k] == t[..k];
  }

  lemma {:induction false} RestIsStable(h: Header, code: nat, tail: seq<byte>, more: seq<byte>)
    requires Rest(h, code, tail).Framed?
    ensures Rest(h, code, tail + more) == Rest(h, code, tail)
  {
    var extra := Extra(FormOf(code));
    assert (tail + more)[..extra] == tail[..extra] && (tail + more)[extra..] == tail[extra..] + more;
    BodyIsStable(h, Length(code, tail[..extra]), 2 + extra, tail[extra..], more);
  }

  lemma {:induction false} ParseIsStable(buf: seq<byte>, more: seq<byte>)
    requires ParseFrame(buf).Framed?
    ensures ParseFrame(buf + more) == ParseFrame(buf)
  {
    ParseInTwo(buf, buf[0], buf[1], buf[2..]);
    assert buf + more == [buf[0], buf[1]] + (buf[2..] + more);
    ParseInTwo(buf + more, buf[0], buf[1], buf[2..] + more);
    RestIsStable(HeaderOf(buf[0], buf[1]), buf[1] % 128, buf[2..], more);
  }

  /** So however a stream of frames is cut into segments, the same frames come out. */
  lemma ParserIsStable()
    ensures Stable(ParseFrame)
  {
    forall buf, more | ParseFrame(buf).Framed?
      ensures ParseFrame(buf + more) == ParseFrame(buf)
    {
      ParseIsStable(buf, more);
    }
  }

  // ---- the parser as written ----------------------------------------------------------

  method Parse(buf: seq<byte>) returns (f: Frame, consumed: nat, ok: bool)
    ensures if ok then ParseFrame(buf) == Framed(f, consumed) else ParseFrame(buf) == Wait && consumed == 0
  {
    f, consumed, ok := Frame(0, false, false, []), 0, false;
    if |buf| < 2 {
      return;
    }
    var fin, opcode, masked := buf[0] / 128 != 0, buf[0] % 16, buf[1] / 128 != 0;
    var length: nat, header := buf[1] % 128, 2;
    if length == 126 {
      if |buf| < 4 {
        return;
      }
      assert buf[2..4] == buf[2..][..2];
      length, header := Big(buf[2..4]), 4;
    } else if length == 127 {
      if |buf| < 10 {
        return;
      }
      assert buf[2..10] == buf[2..][..8];
      length, header := Big(buf[2..10]), 10;
    }
    assert buf[2..][header - 2..] == buf[header..];
    f, consumed, ok := ParseBody(Header(opcode, fin, masked), length, header, buf);
  }

  /** The second half: key, bounds and payload, `header` bytes into the buffer. */
  method ParseBody(h: Header, length: nat, maskOffset: nat, buf: seq<byte>) returns (f: Frame, consumed: nat, ok: bool)
    requires maskOffset <= |buf|
    ensures var o := Body(h, length, maskOffset, buf[maskOffset..]);
            if ok then o == Framed(f, consumed) else o == Wait && consumed == 0
  {
    f, consumed, ok := Frame(h.opcode, h.fin, h.masked, []), 0, false;
    var header := if h.masked then maskOffset + 4 else maskOffset;
    if length > MAX_LENGTH {
      return;
    }
    var total := header + length;
    if |buf| < total {
      return;
    }
    var payload := buf[header..total];
    assert payload == buf[maskOffset..][header - maskOffset..total - maskOffset];
    if h.masked {
      assert buf[maskOffset..header] == buf[maskOffset..][..4];
      payload := UnmaskInto(payload, buf[maskOffset..header]);
    }
    f, consumed, ok := f.(payload := payload), total, true;
  }

  method UnmaskInto(payload: seq<byte>, mask: seq<byte>) returns (s: seq<byte>)
    requires |mask| == 4
    ensures s == Unmask(payload, mask)
  {
    var unmasked := new byte[|payload|];
    for i := 0 to |payload|
      invariant forall k | 0 <= k < i :: unmasked[k] == Xor(payload[k], mask[k % 4], 8)
    {
      unmasked[i] := Xor(payload[i], mask[i % 4], 8);
    }
    s := unmasked[..];
  }
}
