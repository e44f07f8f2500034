/**
 * cmd/gt-mcp/filter_pushdown.go: which part of a filter expression the database can
 * evaluate. An event the filter accepts must satisfy what is pushed down, and a "pure"
 * filter is meant to be expressed by it completely.
 */
module FilterPushdown {
  import opened Seqs

  /**
   * An event as the query layer sees it: its connection in the event index, its connection
   * in the capture context built from that index, its labels, and the rest.
   */
  datatype Event = Event(id: nat, protocol: string, conn: Option<string>, capture: Option<string>, labels: set<string>, rest: nat)

  /** A parsed expression; the operators are the parser's strings. */
  datatype Node = Ident(name: string) | Str(value: string) | Binary(op: string, left: Node, right: Node) | Other(tag: nat)

  datatype Value = Text(text: string) | Bool(truth: bool) | Any(rest: nat) | Error

  /** The meaning of whatever the pushdown does not look into. */
  type Meaning = (Node, Event) -> Value

  predicate IsAnd(op: string) {
    op == "&&" || op == "and"
  }

  predicate IsComparison(op: string) {
    op == "==" || op == "!="
  }

  function Eval(n: Node, e: Event, other: Meaning): Value {
    match n
    case Ident(name) => if name == "protocol" then Text(e.protocol) else other(n, e)
    case Str(value) => Text(value)
    case Other(_) => other(n, e)
    case Binary(op, left, right) =>
      if IsAnd(op) then
        (match Eval(left, e, other)
         case Bool(b) => if b then Eval(right, e, other) else Bool(false)
         case _ => Error)
      else if IsComparison(op) then
        (match (Eval(left, e, other), Eval(right, e, other))
         case (Text(a), Text(b)) => Bool((op == "==") == (a == b))
         case _ => other(n, e))
      else
        other(n, e)
  }

  /** An event is kept when the filter evaluates to true; an error or another value rejects it. */
  predicate Accepts(n: Node, e: Event, other: Meaning) {
    Eval(n, e, other) == Bool(true)
  }

  // ---- the pushdown -------------------------------------------------------------------

  datatype Pushdown = Pushdown(typeEq: string, typeNot: string, pure: bool)
  {
    /** The condition on the type column. */
    predicate Admits(e: Event) {
      if typeEq != "" then e.protocol == typeEq
      else if typeNot != "" then e.protocol != typeNot
      else true
    }
  }

  function SplitConjuncts(n: Node): seq<Node> {
    if n.Binary? && IsAnd(n.op) then SplitConjuncts(n.left) + SplitConjuncts(n.right) else [n]
  }

  datatype Comparison = Comparison(eq: string, ne: string)

  function ConstantPair(op: string, value: string): Comparison {
    if op == "==" then Comparison(value, "") else Comparison("", value)
  }

  function ProtocolComparison(n: Node): Option<Comparison> {
    if !n.Binary? || !IsComparison(n.op) then None
    else if n.left == Ident("protocol") && n.right.Str? then Some(ConstantPair(n.op, n.right.value))
    else if n.right == Ident("protocol") && n.left.Str? then Some(ConstantPair(n.op, n.left.value))
    else None
  }

  /** A recognised comparison whose literal is not empty. */
  predicate Pushes(n: Node) {
    ProtocolComparison(n).Some? && ProtocolComparison(n).value != Comparison("", "")
  }

  /** The first of the conjuncts that can be pushed down. */
  function Chosen(conjuncts: seq<Node>): Comparison {
    if conjuncts == [] then Comparison("", "")
    else if Pushes(conjuncts[0]) then ProtocolComparison(conjuncts[0]).value
    else Chosen(conjuncts[1..])
  }

  /** What the parser returns for an expression; None is the empty filter. */
  function Parsed(filter: Option<Node>): Pushdown {
    match filter
    case None => Pushdown("", "", true)
    case Some(n) =>
      var conjuncts := SplitConjuncts(n);
      var c := Chosen(conjuncts);
      Pushdown(c.eq, c.ne, |conjuncts| == 1 && ProtocolComparison(conjuncts[0]).Some?)
  }

  method ParseFilterPushdown(filter: Option<Node>) returns (pd: Pushdown)
    ensures pd == Parsed(filter)
  {
    if filter.None? {
      return Pushdown("", "", true);
    }
    var conjuncts := SplitConjuncts(filter.value);
    pd := Pushdown("", "", false);
    var pure := true;
    var i := 0;
    while i < |conjuncts|
      invariant 0 <= i <= |conjuncts| && !pd.pure
      invariant pure <==> forall c | c in conjuncts[..i] :: ProtocolComparison(c).Some?
      invariant Chosen(conjuncts)
             == if pd.typeEq == "" && pd.typeNot == "" then Chosen(conjuncts[i..]) else Comparison(pd.typeEq, pd.typeNot)
    {
      var found := ProtocolComparison(conjuncts[i]);
      assert conjuncts[..i + 1] == conjuncts[..i] + [conjuncts[i]];
      if found.None? {
        pure := false;
      } else if pd.typeEq == "" && pd.typeNot == "" {
        pd := pd.(typeEq := found.value.eq, typeNot := found.value.ne);
      }
      i := i + 1;
    }
    assert conjuncts[..i] == conjuncts;
    SplitNonempty(filter.value);
    pd := pd.(pure := pure && |conjuncts| <= 1);
  }

  lemma {:induction false} SplitNonempty(n: Node)
    ensures SplitConjuncts(n) != []
  {
    if n.Binary? && IsAnd(n.op) {
      SplitNonempty(n.left);
    }
  }

  // ---- the pushdown preserves the filter's meaning ------------------------------------

  /** The filter accepts exactly when all its conjuncts do, whatever their order or errors. */
  lemma {:induction false} ConjunctsMeanTheFilter(n: Node, e: Event, other: Meaning)
    ensures Accepts(n, e, other) <==> forall c | c in SplitConjuncts(n) :: Accepts(c, e, other)
  {
    if n.Binary? && IsAnd(n.op) {
      ConjunctsMeanTheFilter(n.left, e, other);
      ConjunctsMeanTheFilter(n.right, e, other);
      SplitNonempty(n.left);
      SplitNonempty(n.right);
    }
  }

  /** A recognised comparison compares the protocol with the constant. */
  lemma {:induction false} ComparisonMeans(n: Node, e: Event, other: Meaning)
    requires ProtocolComparison(n).Some?
    ensures var c := ProtocolComparison(n).value;
            Accepts(n, e, other) <==> if n.op == "==" then e.protocol == c.eq else e.protocol != c.ne
  {
    if n.left == Ident("protocol") && n.right.Str? {
      assert Eval(n.left, e, other) == Text(e.protocol) && Eval(n.right, e, other) == Text(n.right.value);
    } else {
      assert Eval(n.right, e, other) == Text(e.protocol) && Eval(n.left, e, other) == Text(n.left.value);
    }
  }

  /** A comparison that is pushed down means what the database evaluates. */
  lemma {:induction false} PushedComparison(n: Node, e: Event, other: Meaning)
    requires Pushes(n)
    ensures var c := ProtocolComparison(n).value;
            Accepts(n, e, other) <==> Pushdown(c.eq, c.ne, true).Admits(e)
  {
    ComparisonMeans(n, e, other);
  }

  lemma {:induction false} ChosenIsSound(conjuncts: seq<Node>, e: Event, other: Meaning)
    requires forall c | c in conjuncts :: Accepts(c, e, other)
    ensures Pushdown(Chosen(conjuncts).eq, Chosen(conjuncts).ne, true).Admits(e)
  {
    if conjuncts != [] {
      if Pushes(conjuncts[0]) {
        PushedComparison(conjuncts[0], e, other);
      } else {
        ChosenIsSound(conjuncts[1..], e, other);
      }
    }
  }

  /** No event the filter accepts is lost by asking the database only for the pushed-down part. */
  lemma {:induction false} PushdownLosesNothing(n: Node, e: Event, other: Meaning)
    requires Accepts(n, e, other)
    ensures Parsed(Some(n)).Admits(e)
  {
    ConjunctsMeanTheFilter(n, e, other);
    ChosenIsSound(SplitConjuncts(n), e, other);
  }

  lemma {:induction false} ChosenIsFirst(conjuncts: seq<Node>, i: nat)
    requires i < |conjuncts| && Pushes(conjuncts[i]) && forall j | 0 <= j < i :: !Pushes(conjuncts[j])
    ensures Chosen(conjuncts) == ProtocolComparison(conjuncts[i]).value
  {
    if i > 0 {
      assert !Pushes(conjuncts[0]);
      ChosenIsFirst(conjuncts[1..], i - 1);
    }
  }

  lemma {:induction false} ChosenIsNone(conjuncts: seq<Node>)
    requires forall j | 0 <= j < |conjuncts| :: !Pushes(conjuncts[j])
    ensures Chosen(conjuncts) == Comparison("", "")
  {
    if conjuncts != [] {
      assert !Pushes(conjuncts[0]);
      ChosenIsNone(conjuncts[1..]);
    }
  }

  /** The first conjunct that compares the protocol with a nonempty constant is pushed down; without one nothing is. */
  lemma FirstComparisonIsPushed(n: Node, i: nat)
    requires i < |SplitConjuncts(n)| && forall j | 0 <= j < i :: !Pushes(SplitConjuncts(n)[j])
    ensures var pd, c := Parsed(Some(n)), SplitConjuncts(n)[i];
            && (Pushes(c) ==> Comparison(pd.typeEq, pd.typeNot) == ProtocolComparison(c).value && (pd.typeEq != "" || pd.typeNot != ""))
            && (!Pushes(c) && i == |SplitConjuncts(n)| - 1 ==> pd.typeEq == "" && pd.typeNot == "")
  {
    if Pushes(SplitConjuncts(n)[i]) {
      ChosenIsFirst(SplitConjuncts(n), i);
    } else if i == |SplitConjuncts(n)| - 1 {
      ChosenIsNone(SplitConjuncts(n));
    }
  }

  /** The protocol may stand on either side of the comparison, and the comparison may stand anywhere in a conjunction. */
  lemma ComparisonsAreRecognised(op: string, value: string, before: Node, after: Node)
    requires IsComparison(op)
    ensures var c := if op == "==" then Comparison(value, "") else Comparison("", value);
            var left, right := Binary(op, Ident("protocol"), Str(value)), Binary(op, Str(value), Ident("protocol"));
            && Parsed(Some(left)) == Parsed(Some(right)) == Pushdown(c.eq, c.ne, true)
            && SplitConjuncts(Binary("&&", before, Binary("and", left, after)))
               == SplitConjuncts(before) + [left] + SplitConjuncts(after)
  {
    var left, right := Binary(op, Ident("protocol"), Str(value)), Binary(op, Str(value), Ident("protocol"));
    assert SplitConjuncts(left) == [left] && SplitConjuncts(right) == [right];
    var c := if op == "==" then Comparison(value, "") else Comparison("", value);
    assert ProtocolComparison(left) == Some(c) && ProtocolComparison(right) == Some(c);
    assert Chosen([left][1..]) == Comparison("", "") && Chosen([right][1..]) == Comparison("", "");
    assert Chosen([left]) == c && Chosen([right]) == c;
    assert SplitConjuncts(Binary("and", left, after)) == [left] + SplitConjuncts(after);
  }

  /** A pure filter is a single comparison of the protocol with a constant. */
  lemma {:induction false} PureIsOneComparison(n: Node)
    ensures Parsed(Some(n)).pure <==> ProtocolComparison(n).Some?
  {
    if n.Binary? && IsAnd(n.op) {
      SplitNonempty(n.left);
      SplitNonempty(n.right);
      assert |SplitConjuncts(n)| >= 2;
    }
  }

  /**
   * For a pure filter the pushed-down condition and the filter accept the same events if and
   * only if the constant is not empty: an empty constant is recognised but pushes nothing.
   */
  lemma {:induction false} PureIsExactIff(n: Node, other: Meaning)
    requires Parsed(Some(n)).pure
    ensures (forall e :: Accepts(n, e, other) <==> Parsed(Some(n)).Admits(e)) <==> Pushes(n)
  {
    PureIsOneComparison(n);
    assert SplitConjuncts(n) == [n];
    if Pushes(n) {
      forall e
        ensures Accepts(n, e, other) <==> Parsed(Some(n)).Admits(e)
      {
        PushedComparison(n, e, other);
      }
    } else {
      assert Chosen([n]) == Comparison("", "") by {
        assert [n][1..] == [];
      }
      var e := Event(0, if n.op == "==" then "http" else "", None, None, {}, 0);
      ComparisonMeans(n, e, other);
      assert Parsed(Some(n)).Admits(e) && !Accepts(n, e, other);
    }
  }
}
