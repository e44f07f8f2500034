/**
 * The loop every stream decoder runs: append the bytes of a segment to the flow's buffer,
 * then take frames off its front until more bytes are needed. What it emits must not
 * depend on how the stream was cut into segments.
 */
module StreamParser {
  import opened Packets
  import opened Seqs

  /** A frame of `n` bytes; `n` bytes to throw away; or wait for more. */
  datatype Outcome<+F> = Framed(frame: F, n: nat) | Skip(n: nat) | Wait

  type Parser<!F> = seq<byte> -> Outcome<F>

  /** Bytes that follow do not change what was recognised, and something is always consumed. */
  ghost predicate Stable<F(!new)>(p: Parser<F>) {
    && (forall buf :: !p(buf).Wait? ==> 0 < p(buf).n <= |buf|)
    && (forall buf, more :: !p(buf).Wait? ==> p(buf + more) == p(buf))
  }

  /** What is emitted, and what stays in the buffer. */
  datatype Drained<F> = Drained(frames: seq<F>, rest: seq<byte>)

  function Drain<F(!new)>(p: Parser<F>, buf: seq<byte>): Drained<F>
    requires Stable(p)
    decreases |buf|
  {
    var o := p(buf);
    if o.Wait? then Drained([], buf)
    else
      var d := Drain(p, buf[o.n..]);
      Drained((if o.Framed? then [o.frame] else []) + d.frames, d.rest)
  }

  /** The loop with a cap: a buffer over it is dropped whole. */
  function DrainCapped<F(!new)>(p: Parser<F>, cap: nat, buf: seq<byte>): Drained<F>
    requires Stable(p)
    decreases |buf|
  {
    if |buf| > cap then Drained([], [])
    else
      var o := p(buf);
      if o.Wait? then Drained([], buf)
      else
        var d := DrainCapped(p, cap, buf[o.n..]);
        Drained((if o.Framed? then [o.frame] else []) + d.frames, d.rest)
  }

  /** All segments of a stream, one after the other. */
  function Feed<F(!new)>(p: Parser<F>, cap: nat, segments: seq<seq<byte>>): Drained<F>
    requires Stable(p)
  {
    if segments == [] then Drained([], [])
    else
      var before := Feed(p, cap, Front(segments));
      var now := DrainCapped(p, cap, before.rest + Last(segments));
      Drained(before.frames + now.frames, now.rest)
  }

  /** The same loop without a cap. */
  function FeedAll<F(!new)>(p: Parser<F>, segments: seq<seq<byte>>): Drained<F>
    requires Stable(p)
  {
    if segments == [] then Drained([], [])
    else
      var before := FeedAll(p, Front(segments));
      var now := Drain(p, before.rest + Last(segments));
      Drained(before.frames + now.frames, now.rest)
  }

  /** No segment makes the buffer longer than the cap. */
  predicate Fits<F(!new)>(p: Parser<F>, cap: nat, segments: seq<seq<byte>>)
    requires Stable(p)
  {
    segments == [] ||
    (Fits(p, cap, Front(segments)) && |Feed(p, cap, Front(segments)).rest| + |Last(segments)| <= cap)
  }

  // ---- segmentation does not matter ---------------------------------------------------

  lemma {:induction false} UnderTheCap<F(!new)>(p: Parser<F>, cap: nat, buf: seq<byte>)
    requires Stable(p) && |buf| <= cap
    ensures DrainCapped(p, cap, buf) == Drain(p, buf)
    decreases |buf|
  {
    if !p(buf).Wait? {
      UnderTheCap(p, cap, buf[p(buf).n..]);
    }
  }

  /** Draining early and going on with the rest gives what draining everything gives. */
  lemma {:induction false} DrainInParts<F(!new)>(p: Parser<F>, a: seq<byte>, b: seq<byte>)
    requires Stable(p)
    ensures var first := Drain(p, a);
            var second := Drain(p, first.rest + b);
            Drain(p, a + b) == Drained(first.frames + second.frames, second.rest)
    decreases |a|
  {
    var o := p(a);
    if o.Wait? {
      assert [] + Drain(p, a + b).frames == Drain(p, a + b).frames;
    } else {
      assert p(a + b) == o;
      assert (a + b)[o.n..] == a[o.n..] + b;
      DrainInParts(p, a[o.n..], b);
      Regroup(p, a, b, o);
    }
  }

  lemma Regroup<F(!new)>(p: Parser<F>, a: seq<byte>, b: seq<byte>, o: Outcome<F>)
    requires Stable(p) && p(a) == o == p(a + b) && !o.Wait? && (a + b)[o.n..] == a[o.n..] + b
    requires var first := Drain(p, a[o.n..]);
             var second := Drain(p, first.rest + b);
             Drain(p, a[o.n..] + b) == Drained(first.frames + second.frames, second.rest)
    ensures var first := Drain(p, a);
            var second := Drain(p, first.rest + b);
            Drain(p, a + b) == Drained(first.frames + second.frames, second.rest)
  {
    var one := if o.Framed? then [o.frame] else [];
    var first := Drain(p, a[o.n..]);
    var second := Drain(p, first.rest + b);
    assert one + (first.frames + second.frames) == one + first.frames + second.frames;
  }

  /**
   * For every way of cutting a stream into segments that never overfills the buffer, the
   * loop emits the frames, and leaves the residue, of one parse of the whole stream.
   */
  lemma {:induction false} SegmentationDoesNotMatter<F(!new)>(p: Parser<F>, cap: nat, segments: seq<seq<byte>>)
    requires Stable(p) && Fits(p, cap, segments)
    ensures Feed(p, cap, segments) == Drain(p, Concat(segments))
  {
    if segments == [] {
      assert p([]).Wait?;
    } else {
      SegmentationDoesNotMatter(p, cap, Front(segments));
      var before := Feed(p, cap, Front(segments));
      UnderTheCap(p, cap, before.rest + Last(segments));
      DrainInParts(p, Concat(Front(segments)), Last(segments));
    }
  }

  /** Without a cap that holds for every way of cutting. */
  lemma {:induction false} UncappedSegmentation<F(!new)>(p: Parser<F>, segments: seq<seq<byte>>)
    requires Stable(p)
    ensures FeedAll(p, segments) == Drain(p, Concat(segments))
  {
    if segments == [] {
      assert p([]).Wait?;
    } else {
      UncappedSegmentation(p, Front(segments));
      DrainInParts(p, Concat(Front(segments)), Last(segments));
    }
  }

  /** One turn of the loop: `frames` are out already. */
  lemma {:induction false} TakeOne<F(!new)>(p: Parser<F>, cap: nat, frames: seq<F>, buf: seq<byte>)
    requires Stable(p) && |buf| <= cap && p(buf).Framed?
    ensures frames + DrainCapped(p, cap, buf).frames
         == (frames + [p(buf).frame]) + DrainCapped(p, cap, buf[p(buf).n..]).frames
    ensures DrainCapped(p, cap, buf).rest == DrainCapped(p, cap, buf[p(buf).n..]).rest
  {
  }

  lemma {:induction false} TakeOneUncapped<F(!new)>(p: Parser<F>, frames: seq<F>, buf: seq<byte>)
    requires Stable(p) && !p(buf).Wait?
    ensures var more := if p(buf).Framed? then frames + [p(buf).frame] else frames;
            frames + Drain(p, buf).frames == more + Drain(p, buf[p(buf).n..]).frames
    ensures Drain(p, buf).rest == Drain(p, buf[p(buf).n..]).rest
  {
  }

  /** A stream no longer than the cap fits, however it is cut. */
  lemma {:induction false} ShortStreamsFit<F(!new)>(p: Parser<F>, cap: nat, segments: seq<seq<byte>>)
    requires Stable(p) && |Concat(segments)| <= cap
    ensures Fits(p, cap, segments) && |Feed(p, cap, segments).rest| <= |Concat(segments)|
  {
    if segments != [] {
      ShortStreamsFit(p, cap, Front(segments));
      var before := Feed(p, cap, Front(segments));
      RestIsShorter(p, cap, before.rest + Last(segments));
    }
  }

  lemma {:induction false} RestIsShorter<F(!new)>(p: Parser<F>, cap: nat, buf: seq<byte>)
    requires Stable(p)
    ensures |DrainCapped(p, cap, buf).rest| <= |buf|
    decreases |buf|
  {
    if |buf| <= cap && !p(buf).Wait? {
      RestIsShorter(p, cap, buf[p(buf).n..]);
    }
  }

  // ---- and only then ------------------------------------------------------------------

  /** Nothing is thrown away, and a frame says how long it was on the wire. */
  ghost predicate Sized<F(!new)>(p: Parser<F>, size: F -> nat) {
    forall buf :: !p(buf).Skip? && (p(buf).Framed? ==> size(p(buf).frame) == p(buf).n)
  }

  function Total<F(!new)>(frames: seq<F>, size: F -> nat): nat {
    if frames == [] then 0 else size(frames[0]) + Total(frames[1..], size)
  }

  lemma {:induction false} TotalAppend<F(!new)>(a: seq<F>, b: seq<F>, size: F -> nat)
    ensures Total(a + b, size) == Total(a, size) + Total(b, size)
  {
    if a == [] {
      assert a + b == b;
    } else {
      assert (a + b)[1..] == a[1..] + b;
      TotalAppend(a[1..], b, size);
    }
  }

  lemma {:induction false} DrainKeepsBytes<F(!new)>(p: Parser<F>, size: F -> nat, buf: seq<byte>)
    requires Stable(p) && Sized(p, size)
    ensures Total(Drain(p, buf).frames, size) + |Drain(p, buf).rest| == |buf|
    decreases |buf|
  {
    var o := p(buf);
    if o.Framed? {
      DrainKeepsBytes(p, size, buf[o.n..]);
      assert ([o.frame] + Drain(p, buf[o.n..]).frames)[1..] == Drain(p, buf[o.n..]).frames;
    }
  }

  lemma {:induction false} FeedKeepsBytesIff<F(!new)>(p: Parser<F>, size: F -> nat, cap: nat, segments: seq<seq<byte>>)
    requires Stable(p) && Sized(p, size)
    ensures var d := Feed(p, cap, segments);
            && Total(d.frames, size) + |d.rest| <= |Concat(segments)|
            && (Total(d.frames, size) + |d.rest| == |Concat(segments)| <==> Fits(p, cap, segments))
  {
    if segments != [] {
      FeedKeepsBytesIff(p, size, cap, Front(segments));
      var before := Feed(p, cap, Front(segments));
      var buf := before.rest + Last(segments);
      TotalAppend(before.frames, DrainCapped(p, cap, buf).frames, size);
      if |buf| <= cap {
        UnderTheCap(p, cap, buf);
        DrainKeepsBytes(p, size, buf);
      }
    }
  }

  /**
   * For a parser that throws nothing away, the loop gives what one parse of the whole stream
   * gives if and only if no segment overfills the buffer.
   */
  lemma SegmentationMattersIff<F(!new)>(p: Parser<F>, size: F -> nat, cap: nat, segments: seq<seq<byte>>)
    requires Stable(p) && Sized(p, size)
    ensures Feed(p, cap, segments) == Drain(p, Concat(segments)) <==> Fits(p, cap, segments)
  {
    FeedKeepsBytesIff(p, size, cap, segments);
    DrainKeepsBytes(p, size, Concat(segments));
    if Fits(p, cap, segments) {
      SegmentationDoesNotMatter(p, cap, segments);
    }
  }
}
