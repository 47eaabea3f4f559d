/** Text normalisation and percent-encoding of the Redis set members: parts are stripped and upper-cased,
    encoded so that nothing but unreserved characters and `%` remains, and joined by `|`. */
module PercentCodec {
  import opened Options

  /** One octet of UTF-8 text, written as a character. */
  type Octet = c: char | c as int < 256 witness 'a'
  type Text = seq<Octet>

  // --- Normalisation (ASCII).

  predicate Blank(c: Octet) {
    c == ' ' || 9 <= c as int <= 13 || 28 <= c as int <= 31
  }

  function UpperOctet(c: Octet): Octet {
    if 'a' <= c <= 'z' then (c as int - 32) as char else c
  }

  function Upper(s: Text): Text {
    seq(|s|, i requires 0 <= i < |s| => UpperOctet(s[i]))
  }

  function LeftStrip(s: Text): Text {
    if s != [] && Blank(s[0]) then LeftStrip(s[1..]) else s
  }

  function RightStrip(s: Text): Text {
    if s != [] && Blank(s[|s| - 1]) then RightStrip(s[..|s| - 1]) else s
  }

  function Strip(s: Text): Text {
    RightStrip(LeftStrip(s))
  }

  function Normal(s: Text): Text {
    Upper(Strip(s))
  }

  predicate Stripped(s: Text) {
    s == [] || (!Blank(s[0]) && !Blank(s[|s| - 1]))
  }

  // --- What normalisation does, octet by octet.

  predicate AllBlank(s: Text) {
    forall i :: 0 <= i < |s| ==> s[i] as int in {9, 10, 11, 12, 13, 28, 29, 30, 31, 32}
  }

  /** Stripping takes the blanks off both ends and nothing else. */
  lemma StripSplits(s: Text)
    ensures exists a, b :: AllBlank(a) && AllBlank(b) && s == a + Strip(s) + b
  {
    var a := LeftStripSplits(s);
    var b := RightStripSplits(LeftStrip(s));
    assert s == a + Strip(s) + b;
  }

  lemma {:induction false} LeftStripSplits(s: Text) returns (a: Text)
    ensures AllBlank(a) && s == a + LeftStrip(s)
  {
    a := [];
    if s != [] && Blank(s[0]) {
      var rest := LeftStripSplits(s[1..]);
      a := [s[0]] + rest;
    }
  }

  lemma {:induction false} RightStripSplits(s: Text) returns (b: Text)
    ensures AllBlank(b) && s == RightStrip(s) + b
  {
    b := [];
    if s != [] && Blank(s[|s| - 1]) {
      var rest := RightStripSplits(s[..|s| - 1]);
      b := rest + [s[|s| - 1]];
    }
  }

  /** So a text between blanks, with none at its own ends, is what stripping leaves. */
  lemma {:induction false} StripIs(a: Text, s: Text, b: Text)
    requires AllBlank(a) && AllBlank(b) && s != [] && Stripped(s)
    ensures Strip(a + s + b) == s
    decreases |a| + |b|
  {
    if a != [] {
      assert (a + s + b)[1..] == a[1..] + s + b;
      StripIs(a[1..], s, b);
    } else {
      assert a + s + b == s + b;
      assert LeftStrip(s + b) == s + b;
      RightStripIs(s, b);
    }
  }

  lemma {:induction false} RightStripIs(s: Text, b: Text)
    requires AllBlank(b) && s != [] && Stripped(s)
    ensures RightStrip(s + b) == s
  {
    if b != [] {
      assert (s + b)[..|s + b| - 1] == s + b[..|b| - 1];
      RightStripIs(s, b[..|b| - 1]);
    } else {
      assert s + b == s;
    }
  }

  /** Upper-casing moves the 26 small letters to the capital ones, and leaves every other octet. */
  lemma UpperAt(s: Text, i: nat)
    requires i < |s|
    ensures |Upper(s)| == |s|
    ensures Upper(s)[i] as int == if 97 <= s[i] as int <= 122 then s[i] as int - 32 else s[i] as int
  {}

  lemma {:induction false} LeftStripHead(s: Text)
    ensures LeftStrip(s) == [] || !Blank(LeftStrip(s)[0])
  {
    if s != [] && Blank(s[0]) {
      LeftStripHead(s[1..]);
    }
  }

  lemma {:induction false} RightStripEnds(s: Text)
    ensures RightStrip(s) == [] || !Blank(RightStrip(s)[|RightStrip(s)| - 1])
    ensures RightStrip(s) <= s
  {
    if s != [] && Blank(s[|s| - 1]) {
      RightStripEnds(s[..|s| - 1]);
    }
  }

  /** Stripped is what stripping leaves, and what it leaves alone. */
  lemma StripStrips(s: Text)
    ensures Stripped(Strip(s))
    ensures Strip(s) == s <==> Stripped(s)
  {
    LeftStripHead(s);
    RightStripEnds(LeftStrip(s));
  }

  lemma UpperKeepsStripped(s: Text)
    ensures Stripped(Upper(s)) <==> Stripped(s)
    ensures Upper(Upper(s)) == Upper(s)
  {
    assert forall i :: 0 <= i < |s| ==> Blank(Upper(s)[i]) == Blank(s[i]);
  }

  /** Normalising twice is normalising once. */
  lemma NormalIdempotent(s: Text)
    ensures Normal(Normal(s)) == Normal(s) && Strip(Normal(s)) == Normal(s)
  {
    StripStrips(s);
    UpperKeepsStripped(Strip(s));
    StripStrips(Normal(s));
  }

  /** The distinct normalised codes of a request; blank ones are ignored. */
  function NormalCodes(codes: seq<Text>): set<Text> {
    set c | c in codes && Strip(c) != [] :: Normal(c)
  }

  /** Normalised codes normalised again are the same. */
  lemma NormalCodesStable(codes: seq<Text>)
    ensures var s := NormalCodes(codes);
      (set c | c in s && Strip(c) != [] :: Normal(c)) == s
  {
    forall c | c in NormalCodes(codes) ensures Strip(c) != [] && Normal(c) == c {
      var raw :| raw in codes && Strip(raw) != [] && c == Normal(raw);
      NormalIdempotent(raw);
      assert |Normal(raw)| == |Strip(raw)|;
    }
  }

  // --- Percent-encoding (RFC 3986 section 2.1) with no character exempted beyond the unreserved ones.

  predicate Unreserved(c: Octet) {
    'a' <= c <= 'z' || 'A' <= c <= 'Z' || '0' <= c <= '9' || c == '_' || c == '.' || c == '-' || c == '~'
  }

  function Digit(n: nat): (c: Octet)
    requires n < 16
    ensures Unreserved(c) && DigitValue(c) == Some(n)
  {
    if n < 10 then (n + 48) as char else (n + 55) as char
  }

  /** Decoding accepts both cases. */
  function DigitValue(c: Octet): (n: Option<nat>)
    ensures n.Some? ==> n.value < 16
  {
    if '0' <= c <= '9' then Some(c as int - 48)
    else if 'A' <= c <= 'F' then Some(c as int - 55)
    else if 'a' <= c <= 'f' then Some(c as int - 87)
    else None
  }

  function QuoteOctet(c: Octet): Text {
    if Unreserved(c) then [c] else ['%', Digit(c as int / 16), Digit(c as int % 16)]
  }

  function Quote(s: Text): Text {
    if s == [] then [] else QuoteOctet(s[0]) + Quote(s[1..])
  }

  /** A `%` not followed by two hexadecimal digits stands for itself. */
  function Unquote(s: Text): Text {
    if s == [] then []
    else if s[0] == '%' && |s| >= 3 && DigitValue(s[1]).Some? && DigitValue(s[2]).Some? then
      [(16 * DigitValue(s[1]).value + DigitValue(s[2]).value) as char] + Unquote(s[3..])
    else [s[0]] + Unquote(s[1..])
  }

  /** The encoding octet by octet: letters, digits and four marks stand for themselves, every other octet for
      its two upper-case hexadecimal digits (section 2.3 of RFC 3986). */
  lemma QuoteFormat(c: Octet, rest: Text)
    ensures var n := c as int;
      var kept := 97 <= n <= 122 || 65 <= n <= 90 || 48 <= n <= 57 || n in {45, 46, 95, 126};
      Quote([c] + rest) == (if kept then [c] else ['%', "0123456789ABCDEF"[n / 16], "0123456789ABCDEF"[n % 16]]) + Quote(rest)
    ensures Quote([]) == []
  {
    assert ([c] + rest)[1..] == rest;
    HexTable(c as int / 16);
    HexTable(c as int % 16);
  }

  lemma HexTable(n: nat)
    requires n < 16
    ensures Digit(n) == "0123456789ABCDEF"[n]
  {}

  lemma {:induction false} UnquoteQuote(s: Text)
    ensures Unquote(Quote(s)) == s
  {
    if s != [] {
      var q := QuoteOctet(s[0]);
      assert Quote(s)[|q|..] == Quote(s[1..]);
      UnquoteQuote(s[1..]);
    }
  }

  lemma {:induction false} QuoteIsSafe(s: Text)
    ensures forall c :: c in Quote(s) ==> c == '%' || Unreserved(c)
    ensures '|' !in Quote(s) && ':' !in Quote(s)
  {
    if s != [] {
      QuoteIsSafe(s[1..]);
    }
  }

  // --- Members.

  datatype Pair = Pair(first: Text, rest: Text)

  /** Split at the first separator. */
  function Partition(s: Text, separator: Octet): Option<Pair> {
    if s == [] then None
    else if s[0] == separator then Some(Pair([], s[1..]))
    else
      var p := Partition(s[1..], separator);
      if p.None? then None else Some(Pair([s[0]] + p.value.first, p.value.rest))
  }

  lemma {:induction false} PartitionJoined(a: Text, separator: Octet, b: Text)
    requires separator !in a
    ensures Partition(a + [separator] + b, separator) == Some(Pair(a, b))
  {
    var s := a + [separator] + b;
    if a != [] {
      assert s[0] == a[0] && a[0] in a && s[1..] == a[1..] + [separator] + b;
      PartitionJoined(a[1..], separator, b);
      assert [a[0]] + a[1..] == a;
    } else {
      assert s[1..] == b;
    }
  }

  /** Two joins agree only in both parts. */
  lemma JoinInjective(a: Text, b: Text, c: Text, d: Text, separator: Octet)
    requires separator !in a && separator !in c && a + [separator] + b == c + [separator] + d
    ensures a == c && b == d
  {
    PartitionJoined(a, separator, b);
    PartitionJoined(c, separator, d);
  }

  /** The member of a dirty contract. */
  function ContractMember(exchange: Text, orderBook: Text): Text {
    Quote(Normal(exchange)) + ['|'] + Quote(Normal(orderBook))
  }

  /** None is the source's ValueError. */
  function ParseContractMember(member: Text): Option<Pair> {
    var p := Partition(member, '|');
    if p.None? then None else Some(Pair(Unquote(p.value.first), Unquote(p.value.rest)))
  }

  /** The contract codec gives back the normalised parts, so members agree exactly when those do. */
  lemma ContractMemberRoundTrip(exchange: Text, orderBook: Text)
    ensures ParseContractMember(ContractMember(exchange, orderBook)) == Some(Pair(Normal(exchange), Normal(orderBook)))
  {
    QuoteIsSafe(Normal(exchange));
    PartitionJoined(Quote(Normal(exchange)), '|', Quote(Normal(orderBook)));
    UnquoteQuote(Normal(exchange));
    UnquoteQuote(Normal(orderBook));
  }

  datatype Triple = Triple(exchange: Text, symbol: Text, orderBook: Text)

  /** The member of an active order's contract. */
  function OrderMember(exchange: Text, symbol: Text, orderBook: Text): Text {
    Quote(Normal(exchange)) + ['|'] + (Quote(Normal(symbol)) + ['|'] + Quote(Normal(orderBook)))
  }

  /** Fewer than three parts is the source's ValueError; further separators stay in the third part. */
  function ParseOrderMember(member: Text): Option<Triple> {
    var p := Partition(member, '|');
    if p.None? then None else
      var q := Partition(p.value.rest, '|');
      if q.None? then None
      else Some(Triple(Unquote(p.value.first), Unquote(q.value.first), Unquote(q.value.rest)))
  }

  lemma OrderMemberRoundTrip(exchange: Text, symbol: Text, orderBook: Text)
    ensures ParseOrderMember(OrderMember(exchange, symbol, orderBook))
         == Some(Triple(Normal(exchange), Normal(symbol), Normal(orderBook)))
  {
    QuoteIsSafe(Normal(exchange));
    QuoteIsSafe(Normal(symbol));
    PartitionJoined(Quote(Normal(symbol)), '|', Quote(Normal(orderBook)));
    PartitionJoined(Quote(Normal(exchange)), '|', Quote(Normal(symbol)) + ['|'] + Quote(Normal(orderBook)));
    UnquoteQuote(Normal(exchange));
    UnquoteQuote(Normal(symbol));
    UnquoteQuote(Normal(orderBook));
  }
}
