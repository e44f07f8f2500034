/**
 * cmd/gt-agent/capture_runner.go, deriveBPF: the text of a packet filter, built from ports
 * and hosts. Here it is read back, with `and` and `or` at one level or `and` binding
 * tighter, and compared with the boolean filter it stands for.
 */
module CaptureFilter {
  import opened Seqs

  datatype Protocol = Tcp | Udp | Both

  /** `bpf` is an explicit expression, "" if none; `protocol` is as the platform sent it. */
  datatype Params = Params(bpf: string, protocol: string, ports: seq<int>, hosts: seq<string>)

  datatype Packet = Packet(tcp: bool, udp: bool, ports: set<nat>, hosts: set<string>)

  datatype Filter = TcpPort(port: nat) | UdpPort(port: nat) | Host(name: string)
                  | And(left: Filter, right: Filter) | Or(left: Filter, right: Filter)

  predicate Accepts(f: Filter, p: Packet) {
    match f
    case TcpPort(n) => p.tcp && n in p.ports
    case UdpPort(n) => p.udp && n in p.ports
    case Host(h) => h in p.hosts
    case And(a, b) => Accepts(a, p) && Accepts(b, p)
    case Or(a, b) => Accepts(a, p) || Accepts(b, p)
  }

  predicate AcceptsAny(fs: seq<Filter>, p: Packet) {
    exists i :: 0 <= i < |fs| && Accepts(fs[i], p)
  }

  // ---- text ---------------------------------------------------------------------------

  function Decimal(n: nat): (s: string)
    ensures s != [] && forall c | c in s :: '0' <= c <= '9'
  {
    var digit := ['0' + (n % 10) as char];
    if n < 10 then digit else Decimal(n / 10) + digit
  }

  function Number(s: string): nat {
    if s == [] then 0
    else 10 * Number(Front(s)) + if '0' <= Last(s) <= '9' then Last(s) as int - '0' as int else 0
  }

  lemma {:induction false} NumberOfDecimal(n: nat)
    ensures Number(Decimal(n)) == n
  {
    var digit := '0' + (n % 10) as char;
    if n < 10 {
      assert Front(Decimal(n)) == [];
    } else {
      NumberOfDecimal(n / 10);
      assert Front(Decimal(n)) == Decimal(n / 10);
    }
  }

  predicate IsAtom(f: Filter) {
    f.TcpPort? || f.UdpPort? || f.Host?
  }

  function TextOf(f: Filter): string
    requires IsAtom(f)
  {
    match f
    case TcpPort(n) => "tcp port " + Decimal(n)
    case UdpPort(n) => "udp port " + Decimal(n)
    case Host(h) => "host " + h
  }

  function Join(parts: seq<string>, sep: string): string {
    if parts == [] then "" else if |parts| == 1 then parts[0] else Join(Front(parts), sep) + sep + Last(parts)
  }

  predicate Contains(s: string, t: string) {
    exists i | 0 <= i <= |s| - |t| :: At(s, t, i)
  }

  predicate At(s: string, t: string, i: nat)
    requires i + |t| <= |s|
  {
    s[i..i + |t|] == t
  }

  // ---- the filter that is meant -------------------------------------------------------

  predicate ValidPort(port: int) {
    0 < port <= 65535
  }

  /** White space as Unicode defines it. */
  predicate IsSpace(c: char) {
    || c == ' ' || 0x09 <= c as int <= 0x0D || 0x2000 <= c as int <= 0x200A
    || c as int in {0x85, 0xA0, 0x1680, 0x2028, 0x2029, 0x202F, 0x205F, 0x3000}
  }

  function TrimLeft(s: string): string {
    if s != [] && IsSpace(s[0]) then TrimLeft(s[1..]) else s
  }

  function TrimRight(s: string): string {
    if s != [] && IsSpace(Last(s)) then TrimRight(Front(s)) else s
  }

  function Trim(s: string): string {
    TrimRight(TrimLeft(s))
  }

  function Lower(s: string): (r: string)
    ensures |r| == |s|
  {
    seq(|s|, i requires 0 <= i < |s| => if 'A' <= s[i] <= 'Z' then s[i] + 32 as char else s[i])
  }

  /** Anything but udp and both is tcp. */
  function ProtocolOf(s: string): Protocol {
    var name := Lower(Trim(s));
    if name == "udp" then Udp else if name == "both" then Both else Tcp
  }

  lemma {:induction false} TrimmedLeft(a: string, s: string)
    requires forall c | c in a :: IsSpace(c)
    ensures TrimLeft(a + s) == TrimLeft(s)
  {
    if a == [] {
      assert a + s == s;
    } else {
      assert (a + s)[1..] == a[1..] + s;
      TrimmedLeft(a[1..], s);
    }
  }

  lemma {:induction false} TrimmedRight(s: string, b: string)
    requires forall c | c in b :: IsSpace(c)
    ensures TrimRight(s + b) == TrimRight(s)
  {
    if b == [] {
      assert s + b == s;
    } else {
      assert Front(s + b) == s + Front(b);
      TrimmedRight(s, Front(b));
    }
  }

  /** A protocol's name is read in any case and with any white space around it. */
  lemma {:induction false} NamesAreRead(a: string, name: string, b: string)
    requires forall c | c in a + b :: IsSpace(c)
    ensures Lower(name) == "udp" ==> ProtocolOf(a + name + b) == Udp
    ensures Lower(name) == "both" ==> ProtocolOf(a + name + b) == Both
  {
    assert forall c | c in a :: c in a + b;
    assert forall c | c in b :: c in a + b;
    if Lower(name) == "udp" || Lower(name) == "both" {
      forall i | 0 <= i < |name|
        ensures !IsSpace(name[i])
      {
        assert 'a' <= Lower(name)[i] <= 'z';
      }
      assert a + name + b == a + (name + b);
      TrimmedLeft(a, name + b);
      TrimmedRight(name, b);
    }
  }

  function PortAtoms(protocol: Protocol, ports: seq<int>): seq<Filter> {
    if ports == [] then []
    else
      var n := Last(ports);
      PortAtoms(protocol, Front(ports)) +
      if !ValidPort(n) then []
      else match protocol
        case Tcp => [TcpPort(n)]
        case Udp => [UdpPort(n)]
        case Both => [TcpPort(n), UdpPort(n)]
  }

  function HostAtoms(hosts: seq<string>): seq<Filter> {
    if hosts == [] then []
    else HostAtoms(Front(hosts)) + if Trim(Last(hosts)) == "" then [] else [Host(Trim(Last(hosts)))]
  }

  /** Some port matches, if any valid one was given, and some host, if any was given. */
  predicate Wanted(ports: seq<Filter>, hosts: seq<Filter>, p: Packet) {
    (ports == [] || AcceptsAny(ports, p)) && (hosts == [] || AcceptsAny(hosts, p))
  }

  function Texts(atoms: seq<Filter>): seq<string>
    requires AllAtoms(atoms)
  {
    seq(|atoms|, i requires 0 <= i < |atoms| => TextOf(atoms[i]))
  }

  predicate AllAtoms(atoms: seq<Filter>) {
    forall i | 0 <= i < |atoms| :: IsAtom(atoms[i])
  }

  function Group(expr: string, both: bool): string {
    if both && Contains(expr, " or ") then "(" + expr + ")" else expr
  }

  /** The text, from the atoms of the two dimensions. */
  function Printed(ports: seq<Filter>, hosts: seq<Filter>): string
    requires AllAtoms(ports) && AllAtoms(hosts)
  {
    var p, h := Join(Texts(ports), " or "), Join(Texts(hosts), " or ");
    var both := ports != [] && hosts != [];
    if both then Group(p, true) + " and " + Group(h, true) else p + h
  }

  // ---- reading it back ----------------------------------------------------------------

  datatype Token = Word(text: string) | LP | RP

  predicate Delim(c: char) {
    c == ' ' || c == '(' || c == ')'
  }

  function WordLength(s: string): (n: nat)
    ensures n <= |s| && (s != [] && !Delim(s[0]) ==> n > 0)
  {
    if s == [] || Delim(s[0]) then 0 else 1 + WordLength(s[1..])
  }

  function Tokens(s: string): seq<Token>
    decreases |s|
  {
    if s == [] then []
    else if s[0] == ' ' then Tokens(s[1..])
    else if s[0] == '(' then [LP] + Tokens(s[1..])
    else if s[0] == ')' then [RP] + Tokens(s[1..])
    else [Word(s[..WordLength(s)])] + Tokens(s[WordLength(s)..])
  }

  /** A filter and the tokens left. */
  type Parse = Option<(Filter, seq<Token>)>

  function ParseTerm(strong: bool, t: seq<Token>): (r: Parse)
    ensures r.Some? ==> |r.value.1| < |t|
    decreases |t|, 0
  {
    if t == [] then None
    else if t[0] == LP then
      var e := ParseExpr(strong, t[1..]);
      if e.Some? && e.value.1 != [] && e.value.1[0] == RP then Some((e.value.0, e.value.1[1..])) else None
    else if |t| >= 3 && t[0] == Word("tcp") && t[1] == Word("port") && t[2].Word? then
      Some((TcpPort(Number(t[2].text)), t[3..]))
    else if |t| >= 3 && t[0] == Word("udp") && t[1] == Word("port") && t[2].Word? then
      Some((UdpPort(Number(t[2].text)), t[3..]))
    else if |t| >= 2 && t[0] == Word("host") && t[1].Word? then Some((Host(t[1].text), t[2..]))
    else None
  }

  /** With `strong`, the terms joined by `and`. */
  function ParseAnds(strong: bool, acc: Filter, t: seq<Token>): (r: Parse)
    ensures r.Some? ==> |r.value.1| <= |t|
    decreases |t|, 1
  {
    if !strong || t == [] || t[0] != Word("and") then Some((acc, t))
    else
      var e := ParseTerm(strong, t[1..]);
      if e.None? then None else ParseAnds(strong, And(acc, e.value.0), e.value.1)
  }

  function ParseOperand(strong: bool, t: seq<Token>): (r: Parse)
    ensures r.Some? ==> |r.value.1| < |t|
    decreases |t|, 2
  {
    var e := ParseTerm(strong, t);
    if e.None? then None else ParseAnds(strong, e.value.0, e.value.1)
  }

  function ParseOps(strong: bool, acc: Filter, t: seq<Token>): (r: Parse)
    ensures r.Some? ==> |r.value.1| <= |t|
    decreases |t|, 3
  {
    if t == [] || (t[0] != Word("or") && t[0] != Word("and")) then Some((acc, t))
    else
      var e := ParseOperand(strong, t[1..]);
      if e.None? then None
      else ParseOps(strong, if t[0] == Word("or") then Or(acc, e.value.0) else And(acc, e.value.0), e.value.1)
  }

  function ParseExpr(strong: bool, t: seq<Token>): (r: Parse)
    ensures r.Some? ==> |r.value.1| < |t|
    decreases |t|, 4
  {
    var e := ParseOperand(strong, t);
    if e.None? then None else ParseOps(strong, e.value.0, e.value.1)
  }

  /** The empty text filters nothing; `strong` is how tightly `and` binds. */
  predicate Means(strong: bool, text: string, p: Packet) {
    var t := Tokens(text);
    if t == [] then true
    else
      var e := ParseExpr(strong, t);
      e.Some? && e.value.1 == [] && Accepts(e.value.0, p)
  }

  // ---- tokens of the printed text -----------------------------------------------------

  predicate IsWord(s: string) {
    s != [] && forall c | c in s :: !Delim(c)
  }

  predicate Plain(f: Filter) {
    f.TcpPort? || f.UdpPort? || (f.Host? && IsWord(f.name))
  }

  predicate AllPlain(atoms: seq<Filter>) {
    forall i | 0 <= i < |atoms| :: Plain(atoms[i])
  }

  function AtomTokens(f: Filter): seq<Token>
    requires Plain(f)
  {
    match f
    case TcpPort(n) => [Word("tcp"), Word("port"), Word(Decimal(n))]
    case UdpPort(n) => [Word("udp"), Word("port"), Word(Decimal(n))]
    case Host(h) => [Word("host"), Word(h)]
  }

  function OrTokens(atoms: seq<Filter>): seq<Token>
    requires AllPlain(atoms)
  {
    if atoms == [] then []
    else if |atoms| == 1 then AtomTokens(atoms[0])
    else OrTokens(Front(atoms)) + [Word("or")] + AtomTokens(Last(atoms))
  }

  lemma {:induction false} WordLengthOf(w: string, rest: string)
    requires (forall c | c in w :: !Delim(c)) && (rest == [] || Delim(rest[0]))
    ensures WordLength(w + rest) == |w|
  {
    if w == [] {
      assert w + rest == rest;
    } else {
      assert (w + rest)[1..] == w[1..] + rest;
      WordLengthOf(w[1..], rest);
    }
  }

  lemma {:induction false} TokensOfWord(w: string, rest: string)
    requires IsWord(w) && (rest == [] || Delim(rest[0]))
    ensures Tokens(w + rest) == [Word(w)] + Tokens(rest)
  {
    WordLengthOf(w, rest);
    assert (w + rest)[0] == w[0];
    assert (w + rest)[..|w|] == w && (w + rest)[|w|..] == rest;
  }

  lemma {:induction false} OneWord(w: string)
    requires IsWord(w)
    ensures Tokens(w) == [Word(w)]
  {
    TokensOfWord(w, []);
    assert w + [] == w;
  }

  lemma {:induction false} WordLengthEnds(s: string)
    ensures forall c | c in s[..WordLength(s)] :: !Delim(c)
    ensures WordLength(s) < |s| ==> Delim(s[WordLength(s)])
  {
    if s != [] && !Delim(s[0]) {
      WordLengthEnds(s[1..]);
      var n := WordLength(s[1..]);
      assert s[..n + 1] == [s[0]] + s[1..][..n] by {
        assert s == [s[0]] + s[1..];
      }
    }
  }

  lemma {:induction false} AfterDelim(c: char, s: string)
    requires Delim(c)
    ensures Tokens([c] + s) == (if c == ' ' then [] else if c == '(' then [LP] else [RP]) + Tokens(s)
  {
    assert ([c] + s)[1..] == s;
  }

  /** Texts that meet at a delimiter are read one after the other. */
  lemma {:induction false} TokensAppend(a: string, b: string)
    requires a == [] || b == [] || Delim(Last(a)) || Delim(b[0])
    ensures Tokens(a + b) == Tokens(a) + Tokens(b)
    decreases |a|
  {
    if a == [] {
      assert a + b == b;
    } else if b == [] {
      assert a + b == a;
    } else if Delim(a[0]) {
      assert a + b == [a[0]] + (a[1..] + b) && a == [a[0]] + a[1..];
      TokensAppend(a[1..], b);
      AfterDelim(a[0], a[1..] + b);
      AfterDelim(a[0], a[1..]);
    } else {
      var n := WordLength(a);
      WordLengthEnds(a);
      assert a == a[..n] + a[n..];
      AppendAfterWord(a[..n], a[n..], b);
    }
  }

  lemma {:induction false} AppendAfterWord(w: string, rest: string, b: string)
    requires IsWord(w) && b != [] && (rest == [] || Delim(rest[0])) && (rest == [] || Delim(Last(rest)) || Delim(b[0]))
    requires rest == [] ==> Delim(b[0])
    ensures Tokens(w + rest + b) == Tokens(w + rest) + Tokens(b)
    decreases |w| + |rest|, 0
  {
    Associates(w, rest, b);
    TokensAppend(rest, b);
    assert rest != [] ==> (rest + b)[0] == rest[0];
    assert rest == [] ==> rest + b == b;
    TokensOfWord(w, rest + b);
    TokensOfWord(w, rest);
    Associates([Word(w)], Tokens(rest), Tokens(b));
  }

  lemma {:induction false} Spaced(w: string)
    requires IsWord(w)
    ensures Tokens(w + " ") == [Word(w)] && Tokens(" " + w + " ") == [Word(w)]
  {
    OneWord(w);
    TokensAppend(w, " ");
    TokensAppend(" ", w + " ");
    assert Tokens(" ") == [];
    assert " " + w + " " == " " + (w + " ");
  }

  lemma {:induction false} TokensOfPort(protocol: string, n: nat)
    requires IsWord(protocol)
    ensures Tokens(protocol + " port " + Decimal(n)) == [Word(protocol), Word("port"), Word(Decimal(n))]
  {
    assert Tokens(protocol + " port ") == [Word(protocol), Word("port")] by {
      Spaced("port");
      assert " " + "port" + " " == " port ";
      OneWord(protocol);
      TokensAppend(protocol, " port ");
    }
    assert Tokens(Decimal(n)) == [Word(Decimal(n))] by {
      OneWord(Decimal(n));
    }
    TokensAppend(protocol + " port ", Decimal(n));
  }

  lemma {:induction false} TokensOfAtom(f: Filter)
    requires Plain(f)
    ensures Tokens(TextOf(f)) == AtomTokens(f)
  {
    match f
    case TcpPort(n) =>
      TokensOfPort("tcp", n);
      assert "tcp" + " port " == "tcp port ";
    case UdpPort(n) =>
      TokensOfPort("udp", n);
      assert "udp" + " port " == "udp port ";
    case Host(h) => TokensOfHost(h);
  }

  lemma {:induction false} TokensOfHost(h: string)
    requires IsWord(h)
    ensures Tokens("host " + h) == [Word("host"), Word(h)]
  {
    assert Tokens("host ") == [Word("host")] by {
      Spaced("host");
      assert "host" + " " == "host ";
    }
    assert Tokens(h) == [Word(h)] by {
      OneWord(h);
    }
    assert Last("host ") == ' ';
    TokensAppend("host ", h);
  }

  lemma {:induction false} TokensBetween(a: string, w: string, b: string)
    requires IsWord(w)
    ensures Tokens(a + (" " + w + " ") + b) == Tokens(a) + [Word(w)] + Tokens(b)
  {
    var sep := " " + w + " ";
    assert Tokens(sep) == [Word(w)] by {
      Spaced(w);
    }
    TokensAppend(a, sep);
    assert Last(a + sep) == ' ';
    TokensAppend(a + sep, b);
  }

  lemma {:induction false} TokensOfJoin(atoms: seq<Filter>)
    requires AllPlain(atoms)
    ensures Tokens(Join(Texts(atoms), " or ")) == OrTokens(atoms)
  {
    if |atoms| == 1 {
      TokensOfAtom(atoms[0]);
    } else if |atoms| > 1 {
      assert Tokens(Join(Texts(Front(atoms)), " or ")) == OrTokens(Front(atoms)) by {
        TokensOfJoin(Front(atoms));
      }
      assert Tokens(TextOf(Last(atoms))) == AtomTokens(Last(atoms)) by {
        TokensOfAtom(Last(atoms));
      }
      JoinOfMore(atoms);
      TokensBetween(Join(Texts(Front(atoms)), " or "), "or", TextOf(Last(atoms)));
    }
  }

  lemma {:induction false} JoinOfMore(atoms: seq<Filter>)
    requires AllPlain(atoms) && |atoms| > 1
    ensures Join(Texts(atoms), " or ") == Join(Texts(Front(atoms)), " or ") + (" " + "or" + " ") + TextOf(Last(atoms))
  {
    assert Front(Texts(atoms)) == Texts(Front(atoms));
    assert " " + "or" + " " == " or ";
  }

  lemma {:induction false} TokensOfGroup(text: string)
    ensures Tokens("(" + text + ")") == [LP] + Tokens(text) + [RP]
  {
    TokensAppend("(", text + ")");
    TokensAppend(text, ")");
    assert "(" + text + ")" == "(" + (text + ")");
    assert Tokens("(") == [LP] && Tokens(")") == [RP] by {
      assert Tokens([]) == [];
      assert "("[1..] == [] && ")"[1..] == [];
    }
  }

  // ---- when a group contains " or " ---------------------------------------------------

  /** A character that differs from the fourth, second or first one of " or ". */
  lemma NotThere(s: string, i: nat)
    requires i + 4 <= |s| && (s[i + 3] != ' ' || s[i + 1] != 'o' || s[i] != ' ')
    ensures !At(s, " or ", i)
  {
    var here := s[i..i + 4];
    assert here[0] == s[i] && here[1] == s[i + 1] && here[3] == s[i + 3];
  }

  lemma {:induction false} NoOrAfter(prefix: string, rest: string)
    requires prefix == "tcp port " || prefix == "udp port " || prefix == "host "
    requires forall c | c in rest :: c != ' '
    ensures !Contains(prefix + rest, " or ")
  {
    var s := prefix + rest;
    forall i | 0 <= i <= |s| - 4
      ensures !At(s, " or ", i)
    {
      if i + 3 >= |prefix| {
        assert s[i + 3] == rest[i + 3 - |prefix|] && s[i + 3] in rest;
      } else {
        assert s[i] == prefix[i] && s[i + 1] == prefix[i + 1];
      }
      NotThere(s, i);
    }
  }

  lemma {:induction false} SingleHasNoOr(f: Filter)
    requires Plain(f)
    ensures !Contains(TextOf(f), " or ")
  {
    match f
    case TcpPort(n) => NoOrAfter("tcp port ", Decimal(n));
    case UdpPort(n) => NoOrAfter("udp port ", Decimal(n));
    case Host(h) => NoOrAfter("host ", h);
  }

  lemma {:induction false} SeveralHaveOr(atoms: seq<Filter>)
    requires AllPlain(atoms) && |atoms| > 1
    ensures Contains(Join(Texts(atoms), " or "), " or ")
  {
    JoinOfMore(atoms);
    assert " " + "or" + " " == " or ";
    Within(Join(Texts(Front(atoms)), " or "), " or ", TextOf(Last(atoms)));
  }

  lemma Within(a: string, t: string, b: string)
    ensures Contains(a + t + b, t)
  {
    assert At(a + t + b, t, |a|);
  }

  // ---- parsing the tokens -------------------------------------------------------------

  lemma {:induction false} TermOfAtom(strong: bool, f: Filter, rest: seq<Token>)
    requires Plain(f)
    ensures ParseTerm(strong, AtomTokens(f) + rest) == Some((f, rest))
  {
    var t := AtomTokens(f) + rest;
    assert t[|AtomTokens(f)|..] == rest;
    if !f.Host? {
      NumberOfDecimal(f.port);
    }
  }

  lemma {:induction false} OperandOfAtom(strong: bool, f: Filter, rest: seq<Token>)
    requires Plain(f) && (rest == [] || rest[0] != Word("and"))
    ensures ParseOperand(strong, AtomTokens(f) + rest) == Some((f, rest))
  {
    TermOfAtom(strong, f, rest);
  }

  /** The rest of a group, from the front. */
  function OrTail(atoms: seq<Filter>): seq<Token>
    requires AllPlain(atoms)
  {
    if atoms == [] then [] else [Word("or")] + AtomTokens(atoms[0]) + OrTail(atoms[1..])
  }

  function FoldOr(acc: Filter, atoms: seq<Filter>): Filter
    decreases |atoms|
  {
    if atoms == [] then acc else FoldOr(Or(acc, atoms[0]), atoms[1..])
  }

  lemma {:induction false} FoldOrAccepts(acc: Filter, atoms: seq<Filter>, p: Packet)
    ensures Accepts(FoldOr(acc, atoms), p) <==> Accepts(acc, p) || AcceptsAny(atoms, p)
    decreases |atoms|
  {
    if atoms != [] {
      FoldOrAccepts(Or(acc, atoms[0]), atoms[1..], p);
      if AcceptsAny(atoms, p) && !Accepts(atoms[0], p) {
        var i :| 0 <= i < |atoms| && Accepts(atoms[i], p);
        assert Accepts(atoms[1..][i - 1], p);
      }
      if AcceptsAny(atoms[1..], p) {
        var i :| 0 <= i < |atoms[1..]| && Accepts(atoms[1..][i], p);
        assert Accepts(atoms[i + 1], p);
      }
    }
  }

  lemma {:induction false} OrTailSnoc(atoms: seq<Filter>, f: Filter)
    requires AllPlain(atoms) && Plain(f)
    ensures AllPlain(atoms + [f]) && OrTail(atoms + [f]) == OrTail(atoms) + [Word("or")] + AtomTokens(f)
  {
    if atoms == [] {
      assert (atoms + [f])[1..] == [];
    } else {
      assert (atoms + [f])[1..] == atoms[1..] + [f];
      OrTailSnoc(atoms[1..], f);
      var head, tail := [Word("or")] + AtomTokens(atoms[0]), OrTail(atoms[1..]);
      assert head + (tail + [Word("or")] + AtomTokens(f)) == head + tail + [Word("or")] + AtomTokens(f);
    }
  }

  lemma {:induction false} OrTokensFromFront(atoms: seq<Filter>)
    requires AllPlain(atoms) && atoms != []
    ensures OrTokens(atoms) == AtomTokens(atoms[0]) + OrTail(atoms[1..])
  {
    if |atoms| == 1 {
      assert AtomTokens(atoms[0]) + [] == AtomTokens(atoms[0]);
    } else {
      var tail := OrTail(Front(atoms)[1..]);
      assert OrTokens(Front(atoms)) == AtomTokens(atoms[0]) + tail by {
        OrTokensFromFront(Front(atoms));
      }
      assert OrTail(atoms[1..]) == tail + [Word("or")] + AtomTokens(Last(atoms)) by {
        OrTailSnoc(Front(atoms)[1..], Last(atoms));
        assert atoms[1..] == Front(atoms)[1..] + [Last(atoms)];
      }
      Associates(AtomTokens(atoms[0]), tail, [Word("or")]);
      Associates(AtomTokens(atoms[0]), tail + [Word("or")], AtomTokens(Last(atoms)));
    }
  }

  /** What may follow a group. */
  predicate Stops(rest: seq<Token>) {
    rest == [] || rest[0] == RP
  }

  lemma {:induction false} OpsStep(strong: bool, acc: Filter, t: seq<Token>, g: Filter, more: seq<Token>)
    requires ParseOperand(strong, t) == Some((g, more))
    ensures ParseOps(strong, acc, [Word("or")] + t) == ParseOps(strong, Or(acc, g), more)
  {
    assert ([Word("or")] + t)[1..] == t;
  }

  lemma {:induction false} TailStart(atoms: seq<Filter>, rest: seq<Token>)
    requires AllPlain(atoms) && Stops(rest)
    ensures OrTail(atoms) + rest == [] || (OrTail(atoms) + rest)[0] != Word("and")
  {
  }

  lemma {:induction false} OpsOfTail(strong: bool, acc: Filter, atoms: seq<Filter>, rest: seq<Token>)
    requires AllPlain(atoms) && Stops(rest)
    ensures ParseOps(strong, acc, OrTail(atoms) + rest) == Some((FoldOr(acc, atoms), rest))
    decreases |atoms|
  {
    if atoms == [] {
      assert OrTail(atoms) + rest == rest;
    } else {
      var more := OrTail(atoms[1..]) + rest;
      TailStart(atoms[1..], rest);
      assert ParseOperand(strong, AtomTokens(atoms[0]) + more) == Some((atoms[0], more)) by {
        OperandOfAtom(strong, atoms[0], more);
      }
      OpsStep(strong, acc, AtomTokens(atoms[0]) + more, atoms[0], more);
      assert OrTail(atoms) + rest == [Word("or")] + (AtomTokens(atoms[0]) + more) by {
        Associates([Word("or")] + AtomTokens(atoms[0]), OrTail(atoms[1..]), rest);
        Associates([Word("or")], AtomTokens(atoms[0]), more);
      }
      OpsOfTail(strong, Or(acc, atoms[0]), atoms[1..], rest);
    }
  }

  function GroupFilter(atoms: seq<Filter>): Filter
    requires atoms != []
  {
    FoldOr(atoms[0], atoms[1..])
  }

  lemma {:induction false} GroupFilterAccepts(atoms: seq<Filter>, p: Packet)
    requires atoms != []
    ensures Accepts(GroupFilter(atoms), p) <==> AcceptsAny(atoms, p)
  {
    FoldOrAccepts(atoms[0], atoms[1..], p);
    if AcceptsAny(atoms[1..], p) {
      var i :| 0 <= i < |atoms[1..]| && Accepts(atoms[1..][i], p);
      assert Accepts(atoms[i + 1], p);
    }
    if i :| 0 < i < |atoms| && Accepts(atoms[i], p) {
      assert Accepts(atoms[1..][i - 1], p);
    }
  }

  lemma {:induction false} ExprOfGroup(strong: bool, atoms: seq<Filter>, rest: seq<Token>)
    requires AllPlain(atoms) && atoms != [] && Stops(rest)
    ensures ParseExpr(strong, OrTokens(atoms) + rest) == Some((GroupFilter(atoms), rest))
  {
    OrTokensFromFront(atoms);
    var more := OrTail(atoms[1..]) + rest;
    Associates(AtomTokens(atoms[0]), OrTail(atoms[1..]), rest);
    assert more != [] ==> more[0] == RP || more[0] == Word("or");
    OperandOfAtom(strong, atoms[0], more);
    OpsOfTail(strong, atoms[0], atoms[1..], rest);
  }

  function GroupTokens(atoms: seq<Filter>): seq<Token>
    requires AllPlain(atoms)
  {
    if |atoms| > 1 then [LP] + OrTokens(atoms) + [RP] else OrTokens(atoms)
  }

  lemma {:induction false} TermOfGroup(strong: bool, atoms: seq<Filter>, rest: seq<Token>)
    requires AllPlain(atoms) && atoms != []
    ensures ParseTerm(strong, GroupTokens(atoms) + rest) == Some((GroupFilter(atoms), rest))
  {
    if |atoms| == 1 {
      TermOfAtom(strong, atoms[0], rest);
    } else {
      var inner := OrTokens(atoms) + ([RP] + rest);
      assert GroupTokens(atoms) + rest == [LP] + inner;
      assert ParseExpr(strong, inner) == Some((GroupFilter(atoms), [RP] + rest)) by {
        ExprOfGroup(strong, atoms, [RP] + rest);
      }
      TermOfBrackets(strong, inner, GroupFilter(atoms), rest);
    }
  }

  lemma {:induction false} TermOfBrackets(strong: bool, inner: seq<Token>, f: Filter, rest: seq<Token>)
    requires ParseExpr(strong, inner) == Some((f, [RP] + rest))
    ensures ParseTerm(strong, [LP] + inner) == Some((f, rest))
  {
    assert ([LP] + inner)[1..] == inner && ([RP] + rest)[1..] == rest;
  }

  lemma {:induction false} ExprOfBoth(strong: bool, ports: seq<Filter>, hosts: seq<Filter>)
    requires AllPlain(ports) && AllPlain(hosts) && ports != [] && hosts != []
    ensures ParseExpr(strong, GroupTokens(ports) + [Word("and")] + GroupTokens(hosts))
         == Some((And(GroupFilter(ports), GroupFilter(hosts)), []))
  {
    var h := GroupTokens(hosts);
    var rest := [Word("and")] + h;
    var t := GroupTokens(ports) + [Word("and")] + h;
    assert t == GroupTokens(ports) + rest;
    assert ParseTerm(strong, t) == Some((GroupFilter(ports), rest)) by {
      TermOfGroup(strong, ports, rest);
    }
    assert ParseTerm(strong, h) == Some((GroupFilter(hosts), [])) by {
      TermOfGroup(strong, hosts, []);
      assert h + [] == h;
    }
    AndOfTerms(strong, t, GroupFilter(ports), h, GroupFilter(hosts));
  }

  lemma {:induction false} AndOfTerms(strong: bool, t: seq<Token>, f: Filter, h: seq<Token>, g: Filter)
    requires ParseTerm(strong, t) == Some((f, [Word("and")] + h)) && ParseTerm(strong, h) == Some((g, []))
    ensures ParseExpr(strong, t) == Some((And(f, g), []))
  {
    var rest := [Word("and")] + h;
    assert rest[0] == Word("and") && rest[1..] == h;
    if strong {
      assert ParseAnds(strong, And(f, g), []) == Some((And(f, g), []));
      assert ParseOperand(strong, t) == Some((And(f, g), []));
    } else {
      assert ParseOperand(strong, t) == Some((f, rest));
      assert ParseOperand(strong, h) == Some((g, []));
      assert ParseOps(strong, And(f, g), []) == Some((And(f, g), []));
    }
  }

  // ---- the text means the filter ------------------------------------------------------

  lemma {:induction false} TokensOfGroupText(atoms: seq<Filter>)
    requires AllPlain(atoms) && atoms != []
    ensures Tokens(Group(Join(Texts(atoms), " or "), true)) == GroupTokens(atoms)
  {
    TokensOfJoin(atoms);
    if |atoms| > 1 {
      SeveralHaveOr(atoms);
      TokensOfGroup(Join(Texts(atoms), " or "));
    } else {
      SingleHasNoOr(atoms[0]);
    }
  }

  lemma {:induction false} TokensOfBoth(ports: seq<Filter>, hosts: seq<Filter>)
    requires AllPlain(ports) && AllPlain(hosts) && ports != [] && hosts != []
    ensures Tokens(Printed(ports, hosts)) == GroupTokens(ports) + [Word("and")] + GroupTokens(hosts)
  {
    TokensOfGroupText(ports);
    TokensOfGroupText(hosts);
    var p, h := Group(Join(Texts(ports), " or "), true), Group(Join(Texts(hosts), " or "), true);
    TokensBetween(p, "and", h);
    assert " " + "and" + " " == " and ";
  }

  lemma {:induction false} TokensOfOne(atoms: seq<Filter>, strong: bool)
    requires AllPlain(atoms) && atoms != []
    ensures Tokens(Join(Texts(atoms), " or ")) != []
    ensures ParseExpr(strong, Tokens(Join(Texts(atoms), " or "))) == Some((GroupFilter(atoms), []))
  {
    TokensOfJoin(atoms);
    OrTokensFromFront(atoms);
    ExprOfGroup(strong, atoms, []);
    assert OrTokens(atoms) + [] == OrTokens(atoms);
  }

  /**
   * For hosts without spaces or parentheses the printed text, read with `and` and `or` at one
   * level or with `and` binding tighter, accepts a packet exactly when some port matches (if
   * a valid one was given) and some host matches (if any was given).
   */
  lemma {:induction false} TextMeansFilter(strong: bool, ports: seq<Filter>, hosts: seq<Filter>, p: Packet)
    requires AllPlain(ports) && AllPlain(hosts)
    ensures Means(strong, Printed(ports, hosts), p) <==> Wanted(ports, hosts, p)
  {
    if ports != [] && hosts != [] {
      TokensOfBoth(ports, hosts);
      ExprOfBoth(strong, ports, hosts);
      GroupFilterAccepts(ports, p);
      GroupFilterAccepts(hosts, p);
    } else if ports != [] {
      assert Printed(ports, hosts) == Join(Texts(ports), " or ");
      TokensOfOne(ports, strong);
      GroupFilterAccepts(ports, p);
    } else if hosts != [] {
      assert Printed(ports, hosts) == Join(Texts(hosts), " or ");
      TokensOfOne(hosts, strong);
      GroupFilterAccepts(hosts, p);
    } else {
      assert Printed(ports, hosts) == "";
    }
  }

  lemma {:induction false} PortAtomsArePlain(protocol: Protocol, ports: seq<int>)
    ensures AllPlain(PortAtoms(protocol, ports))
  {
    if ports != [] {
      PortAtomsArePlain(protocol, Front(ports));
    }
  }

  lemma {:induction false} HostAtomsArePlain(hosts: seq<string>)
    requires forall h | h in hosts :: Trim(h) == "" || IsWord(Trim(h))
    ensures AllPlain(HostAtoms(hosts))
  {
    if hosts != [] {
      HostAtomsArePlain(Front(hosts));
    }
  }

  lemma {:induction false} HostAtomsAreAtoms(hosts: seq<string>)
    ensures AllAtoms(HostAtoms(hosts))
  {
    if hosts != [] {
      HostAtomsAreAtoms(Front(hosts));
    }
  }

  /** Which packets the ports and hosts of the parameters ask for. */
  predicate Asked(ps: Params, p: Packet) {
    && ((forall n | n in ps.ports :: !(0 < n <= 65535)) || (exists n | n in ps.ports :: PortMatches(ProtocolOf(ps.protocol), n, p)))
    && ((forall h | h in ps.hosts :: Trim(h) == "") || (exists h | h in ps.hosts :: Trim(h) != "" && Trim(h) in p.hosts))
  }

  predicate PortMatches(protocol: Protocol, n: int, p: Packet) {
    0 < n <= 65535 && n in p.ports && ((protocol != Udp && p.tcp) || (protocol != Tcp && p.udp))
  }

  lemma AnyAppend(a: seq<Filter>, b: seq<Filter>, p: Packet)
    ensures AcceptsAny(a + b, p) <==> AcceptsAny(a, p) || AcceptsAny(b, p)
  {
    if i :| 0 <= i < |a| && Accepts(a[i], p) {
      assert Accepts((a + b)[i], p);
    }
    if i :| 0 <= i < |b| && Accepts(b[i], p) {
      assert Accepts((a + b)[|a| + i], p);
    }
  }

  lemma {:induction false} PortAtomsMean(protocol: Protocol, ports: seq<int>, p: Packet)
    ensures PortAtoms(protocol, ports) == [] <==> forall n | n in ports :: !ValidPort(n)
    ensures AcceptsAny(PortAtoms(protocol, ports), p) <==> exists n :: n in ports && PortMatches(protocol, n, p)
  {
    if ports != [] {
      PortAtomsMean(protocol, Front(ports), p);
      assert ports == Front(ports) + [Last(ports)];
      var atoms := PortAtoms(protocol, [Last(ports)]);
      LastPortMeans(protocol, Last(ports), p);
      assert PortAtoms(protocol, ports) == PortAtoms(protocol, Front(ports)) + atoms by {
        assert Front([Last(ports)]) == [] && [] + atoms == atoms;
      }
      AnyAppend(PortAtoms(protocol, Front(ports)), atoms, p);
    }
  }

  lemma {:induction false} LastPortMeans(protocol: Protocol, n: int, p: Packet)
    ensures PortAtoms(protocol, [n]) == [] <==> !ValidPort(n)
    ensures AcceptsAny(PortAtoms(protocol, [n]), p) <==> PortMatches(protocol, n, p)
  {
    var tcp := protocol != Udp;
    var atoms := if !ValidPort(n) then [] else if protocol == Both then [TcpPort(n), UdpPort(n)]
                 else if tcp then [TcpPort(n)] else [UdpPort(n)];
    assert PortAtoms(protocol, [n]) == atoms by {
      assert Front([n]) == [] && [] + atoms == atoms;
    }
    if PortMatches(protocol, n, p) {
      assert if tcp && p.tcp then Accepts(atoms[0], p) else Accepts(Last(atoms), p);
    }
  }

  lemma {:induction false} HostAtomsMean(hosts: seq<string>, p: Packet)
    ensures HostAtoms(hosts) == [] <==> forall h | h in hosts :: Trim(h) == ""
    ensures AcceptsAny(HostAtoms(hosts), p) <==> exists h :: h in hosts && Trim(h) != "" && Trim(h) in p.hosts
  {
    if hosts != [] {
      HostAtomsMean(Front(hosts), p);
      assert hosts == Front(hosts) + [Last(hosts)];
      var t := Trim(Last(hosts));
      var atoms := if t == "" then [] else [Host(t)];
      AnyAppend(HostAtoms(Front(hosts)), atoms, p);
      assert AcceptsAny(atoms, p) <==> t != "" && t in p.hosts by {
        if t != "" && t in p.hosts {
          assert Accepts(atoms[0], p);
        }
      }
    }
  }

  /**
   * Derived from ports and hosts (no explicit expression, hosts without inner spaces or
   * parentheses), the text accepts exactly the packets asked for, in both readings.
   */
  lemma {:induction false} DerivedTextIsRight(ps: Params, strong: bool, p: Packet)
    requires forall h | h in ps.hosts :: Trim(h) == "" || IsWord(Trim(h))
    ensures AllAtoms(PortAtoms(ProtocolOf(ps.protocol), ps.ports)) && AllAtoms(HostAtoms(ps.hosts))
    ensures Means(strong, Printed(PortAtoms(ProtocolOf(ps.protocol), ps.ports), HostAtoms(ps.hosts)), p) <==> Asked(ps, p)
  {
    PortAtomsArePlain(ProtocolOf(ps.protocol), ps.ports);
    HostAtomsArePlain(ps.hosts);
    HostAtomsAreAtoms(ps.hosts);
    TextMeansFilter(strong, PortAtoms(ProtocolOf(ps.protocol), ps.ports), HostAtoms(ps.hosts), p);
    PortAtomsMean(ProtocolOf(ps.protocol), ps.ports, p);
    HostAtomsMean(ps.hosts, p);
  }

  // ---- the printer --------------------------------------------------------------------

  lemma {:induction false} JoinMore(parts: seq<string>, s: string)
    ensures Join(parts + [s], " or ") == if parts == [] then s else Join(parts, " or ") + " or " + s
  {
    assert Front(parts + [s]) == parts;
  }

  lemma {:induction false} OnePart(parts: seq<string>, atoms: seq<Filter>, f: Filter)
    requires AllAtoms(atoms) && IsAtom(f)
    requires (parts == [] <==> atoms == []) && Join(parts, " or ") == Join(Texts(atoms), " or ")
    ensures AllAtoms(atoms + [f]) && Join(parts + [TextOf(f)], " or ") == Join(Texts(atoms + [f]), " or ")
  {
    JoinMore(parts, TextOf(f));
    JoinMore(Texts(atoms), TextOf(f));
    assert Texts(atoms + [f]) == Texts(atoms) + [TextOf(f)];
  }

  /** A port of both protocols is one part with two atoms. */
  lemma {:induction false} TwoAtoms(parts: seq<string>, atoms: seq<Filter>, f: Filter, g: Filter)
    requires AllAtoms(atoms) && IsAtom(f) && IsAtom(g)
    requires (parts == [] <==> atoms == []) && Join(parts, " or ") == Join(Texts(atoms), " or ")
    ensures AllAtoms(atoms + [f, g])
    ensures Join(parts + [TextOf(f) + " or " + TextOf(g)], " or ") == Join(Texts(atoms + [f, g]), " or ")
  {
    OnePart(parts, atoms, f);
    OnePart(parts + [TextOf(f)], atoms + [f], g);
    assert atoms + [f, g] == atoms + [f] + [g];
    JoinMore(parts, TextOf(f));
    JoinMore(parts + [TextOf(f)], TextOf(g));
    JoinMore(parts, TextOf(f) + " or " + TextOf(g));
    Regroup(Join(parts, " or "), TextOf(f), TextOf(g));
  }

  lemma Regroup(a: string, b: string, c: string)
    ensures a + " or " + (b + " or " + c) == a + " or " + b + " or " + c
  {
  }

  method PortParts(protocol: Protocol, ports: seq<int>) returns (parts: seq<string>)
    ensures AllAtoms(PortAtoms(protocol, ports)) && (parts == [] <==> PortAtoms(protocol, ports) == [])
    ensures Join(parts, " or ") == Join(Texts(PortAtoms(protocol, ports)), " or ")
  {
    parts := [];
    assert ports[..0] == [];
    for i := 0 to |ports|
      invariant AllAtoms(PortAtoms(protocol, ports[..i])) && (parts == [] <==> PortAtoms(protocol, ports[..i]) == [])
      invariant Join(parts, " or ") == Join(Texts(PortAtoms(protocol, ports[..i])), " or ")
    {
      ghost var atoms := PortAtoms(protocol, ports[..i]);
      var port := ports[i];
      assert Front(ports[..i + 1]) == ports[..i];
      if port > 0 && port <= 65535 {
        var s;
        match protocol {
          case Udp => s := "udp port " + Decimal(port);
          case Both => s := "tcp port " + Decimal(port) + " or " + "udp port " + Decimal(port);
          case Tcp => s := "tcp port " + Decimal(port);
        }
        if protocol == Both {
          Associates("tcp port " + Decimal(port) + " or ", "udp port ", Decimal(port));
          TwoAtoms(parts, atoms, TcpPort(port), UdpPort(port));
        } else {
          OnePart(parts, atoms, if protocol == Tcp then TcpPort(port) else UdpPort(port));
        }
        parts := parts + [s];
      } else {
        assert atoms + [] == atoms;
      }
    }
    assert ports[..|ports|] == ports;
  }

  method HostParts(hosts: seq<string>) returns (parts: seq<string>)
    ensures AllAtoms(HostAtoms(hosts)) && (parts == [] <==> HostAtoms(hosts) == [])
    ensures Join(parts, " or ") == Join(Texts(HostAtoms(hosts)), " or ")
  {
    parts := [];
    assert hosts[..0] == [];
    for i := 0 to |hosts|
      invariant AllAtoms(HostAtoms(hosts[..i])) && parts == Texts(HostAtoms(hosts[..i]))
    {
      ghost var atoms := HostAtoms(hosts[..i]);
      assert Front(hosts[..i + 1]) == hosts[..i];
      var h := Trim(hosts[i]);
      if h != "" {
        parts := parts + ["host " + h];
        assert Texts(atoms + [Host(h)]) == Texts(atoms) + [TextOf(Host(h))];
      } else {
        assert atoms + [] == atoms;
      }
    }
    assert hosts[..|hosts|] == hosts;
  }

  method DeriveBpf(ps: Params) returns (text: string)
    ensures AllAtoms(PortAtoms(ProtocolOf(ps.protocol), ps.ports)) && AllAtoms(HostAtoms(ps.hosts))
    ensures text == if ps.bpf != "" then ps.bpf
                    else Printed(PortAtoms(ProtocolOf(ps.protocol), ps.ports), HostAtoms(ps.hosts))
  {
    PortAtomsArePlain(ProtocolOf(ps.protocol), ps.ports);
    HostAtomsAreAtoms(ps.hosts);
    if ps.bpf != "" {
      return ps.bpf;
    }
    var name := Lower(Trim(ps.protocol));
    var protocol := Tcp;
    if name == "udp" {
      protocol := Udp;
    } else if name == "both" {
      protocol := Both;
    }
    var portParts := PortParts(protocol, ps.ports);
    var hostParts := HostParts(ps.hosts);
    var portExpr, hostExpr := Join(portParts, " or "), Join(hostParts, " or ");
    var both := |portParts| > 0 && |hostParts| > 0;
    ghost var ports, hosts := PortAtoms(ProtocolOf(ps.protocol), ps.ports), HostAtoms(ps.hosts);
    assert Printed(ports, hosts) == if both then Group(portExpr, true) + " and " + Group(hostExpr, true) else portExpr + hostExpr;
    var parts: seq<string> := [];
    if |portParts| > 0 {
      if both && Contains(portExpr, " or ") {
        portExpr := "(" + portExpr + ")";
      }
      parts := parts + [portExpr];
    }
    if |hostParts| > 0 {
      if both && Contains(hostExpr, " or ") {
        hostExpr := "(" + hostExpr + ")";
      }
      parts := parts + [hostExpr];
    }
    assert both ==> Front(parts) == [portExpr] && Join(Front(parts), " and ") == portExpr;
    assert Join([], " or ") == "";
    text := Join(parts, " and ");
  }
}
