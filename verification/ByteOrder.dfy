/** encoding/binary's byte orders, for fields of any width. */
module ByteOrder {
  import opened Packets
  import opened Seqs

  /** How many values a field of `width` bytes has. */
  function Power(width: nat): nat {
    if width == 0 then 1 else 256 * Power(width - 1)
  }

  function Big(s: seq<byte>): nat {
    if s == [] then 0 else 256 * Big(Front(s)) + Last(s)
  }

  function Little(s: seq<byte>): nat {
    if s == [] then 0 else s[0] + 256 * Little(s[1..])
  }

  function Field(s: seq<byte>, little: bool): nat {
    if little then Little(s) else Big(s)
  }

  function PutBig(n: nat, width: nat): (s: seq<byte>)
    ensures |s| == width
  {
    if width == 0 then [] else PutBig(n / 256, width - 1) + [n % 256]
  }

  function PutLittle(n: nat, width: nat): (s: seq<byte>)
    ensures |s| == width
  {
    if width == 0 then [] else [n % 256] + PutLittle(n / 256, width - 1)
  }

  function PutField(n: nat, width: nat, little: bool): (s: seq<byte>)
    ensures |s| == width
  {
    if little then PutLittle(n, width) else PutBig(n, width)
  }

  lemma {:induction false} FieldRoundTrip(n: nat, width: nat, little: bool)
    requires n < Power(width)
    ensures Field(PutField(n, width, little), little) == n
  {
    if width > 0 {
      FieldRoundTrip(n / 256, width - 1, little);
      if little {
        assert PutLittle(n, width)[1..] == PutLittle(n / 256, width - 1);
      } else {
        assert Front(PutBig(n, width)) == PutBig(n / 256, width - 1);
      }
    }
  }

  lemma {:induction false} FieldDetermines(s: seq<byte>, little: bool)
    ensures PutField(Field(s, little), |s|, little) == s && Field(s, little) < Power(|s|)
  {
    if s != [] {
      if little {
        FieldDetermines(s[1..], little);
      } else {
        FieldDetermines(Front(s), little);
      }
    }
  }
}
