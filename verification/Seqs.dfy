/** Vocabulary on sequences and sets shared by the component models. */
module Seqs {

  datatype Option<+T> = None | Some(value: T)

  function Last<T>(s: seq<T>): T
    requires s != []
  {
    s[|s| - 1]
  }

  function Front<T>(s: seq<T>): seq<T>
    requires s != []
  {
    s[..|s| - 1]
  }

  /** `a` can be obtained from `b` by leaving elements out; the order is kept. */
  ghost predicate Subseq<T>(a: seq<T>, b: seq<T>) {
    if b == [] then
      a == []
    else
      Subseq(a, Front(b)) || (a != [] && Last(a) == Last(b) && Subseq(Front(a), Front(b)))
  }

  lemma {:induction false} SubseqExtend<T>(a: seq<T>, b: seq<T>, x: T)
    requires Subseq(a, b)
    ensures Subseq(a, b + [x])
    ensures Subseq(a + [x], b + [x])
  {
    assert Front(b + [x]) == b;
    assert Front(a + [x]) == a;
  }

  lemma {:induction false} SubseqRefl<T>(a: seq<T>)
    ensures Subseq(a, a)
  {
    if a != [] {
      SubseqRefl(Front(a));
    }
  }

  /** Leaving one more element out keeps the relation. */
  lemma {:induction false} SubseqOmit<T>(p: seq<T>, x: T, s: seq<T>, b: seq<T>)
    requires Subseq(p + [x] + s, b)
    ensures Subseq(p + s, b)
  {
    if b != [] {
      var a := p + [x] + s;
      if Subseq(a, Front(b)) {
        SubseqOmit(p, x, s, Front(b));
      } else if s == [] {
        assert Front(a) == p == p + s;
      } else {
        assert Front(a) == p + [x] + Front(s);
        SubseqOmit(p, x, Front(s), Front(b));
        assert Front(p + s) == p + Front(s);
      }
    }
  }

  lemma {:induction false} SubseqTransitive<T>(a: seq<T>, b: seq<T>, c: seq<T>)
    requires Subseq(a, b) && Subseq(b, c)
    ensures Subseq(a, c)
    decreases |c|
  {
    if c != [] {
      if Subseq(b, Front(c)) {
        SubseqTransitive(a, b, Front(c));
      } else if Subseq(a, Front(b)) {
        SubseqTransitive(a, Front(b), Front(c));
      } else {
        SubseqTransitive(Front(a), Front(b), Front(c));
      }
    }
  }

  lemma {:induction false} PrefixIsSubseq<T>(a: seq<T>, s: seq<T>)
    ensures Subseq(a, a + s)
    decreases |s|
  {
    if s == [] {
      SubseqRefl(a);
      assert a + s == a;
    } else {
      PrefixIsSubseq(a, Front(s));
      assert a + s == (a + Front(s)) + [Last(s)];
      SubseqExtend(a, a + Front(s), Last(s));
    }
  }

  lemma PrefixSubseq<T>(a: seq<T>, b: seq<T>, rest: seq<T>, c: seq<T>)
    requires Subseq(a, b) && Subseq(b + rest, c)
    ensures Subseq(a, c)
  {
    PrefixIsSubseq(b, rest);
    SubseqTransitive(a, b, b + rest);
    SubseqTransitive(a, b + rest, c);
  }

  lemma {:induction false} SubseqLength<T>(a: seq<T>, b: seq<T>)
    requires Subseq(a, b)
    ensures |a| <= |b|
    ensures |a| == |b| ==> a == b
    decreases |b|
  {
    if b != [] {
      if Subseq(a, Front(b)) {
        SubseqLength(a, Front(b));
      } else {
        SubseqLength(Front(a), Front(b));
        assert a == Front(a) + [Last(a)] && b == Front(b) + [Last(b)];
      }
    }
  }

  function Concat<T>(parts: seq<seq<T>>): seq<T> {
    if parts == [] then [] else Concat(Front(parts)) + Last(parts)
  }

  lemma {:induction false} ConcatAppend<T>(a: seq<seq<T>>, b: seq<seq<T>>)
    ensures Concat(a + b) == Concat(a) + Concat(b)
    decreases |b|
  {
    if b == [] {
      assert a + b == a;
    } else {
      assert Front(a + b) == a + Front(b);
      ConcatAppend(a, Front(b));
      assert Last(a + b) == Last(b);
    }
  }

  lemma Associates<T>(a: seq<T>, b: seq<T>, c: seq<T>)
    ensures a + b + c == a + (b + c)
  {
  }

  lemma {:induction false} SubsetSize<T>(a: set<T>, b: set<T>)
    requires a <= b
    ensures |a| <= |b|
  {
    if a != {} {
      var x :| x in a;
      SubsetSize(a - {x}, b - {x});
    }
  }
}
