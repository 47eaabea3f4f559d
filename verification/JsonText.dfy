/** The compact JSON of page cursors (RFC 8259): null, integers, strings and objects, printed without spaces
    and read back. Anything else, and any spacing, is refused by the reader. A printed value is read back as
    itself whatever follows it, member by member, so a text can be read inside a longer one; quotation marks,
    backslashes and control characters are escaped, other octets stand for themselves. */
module JsonText {
  import opened Options
  import opened PercentCodec

  datatype Json = Null | Int(value: int) | Str(text: Text) | Obj(members: seq<Member>)
  datatype Member = Member(key: Text, value: Json)

  // --- Strings: quotes, backslashes and control characters are escaped, other octets stand for themselves.

  function HexDigit(n: nat): (c: Octet)
    requires n < 16
    ensures DigitValue(c) == Some(n)
  {
    if n < 10 then (n + 48) as char else (n + 87) as char
  }

  /** The letter of a two-character escape. */
  function ShortEscape(c: Octet): Option<Octet> {
    if c == '\"' then Some('\"')
    else if c == '\\' then Some('\\')
    else if c == 8 as char then Some('b')
    else if c == '\t' then Some('t')
    else if c == '\n' then Some('n')
    else if c == 12 as char then Some('f')
    else if c == '\r' then Some('r')
    else None
  }

  function Unescape(letter: Octet): Option<Octet> {
    if letter == '\"' then Some('\"')
    else if letter == '\\' then Some('\\')
    else if letter == '/' then Some('/')
    else if letter == 'b' then Some(8 as char)
    else if letter == 't' then Some('\t')
    else if letter == 'n' then Some('\n')
    else if letter == 'f' then Some(12 as char)
    else if letter == 'r' then Some('\r')
    else None
  }

  function Escape(c: Octet): Text {
    if ShortEscape(c).Some? then ['\\', ShortEscape(c).value]
    else if c as int < 32 then ['\\', 'u', '0', '0', HexDigit(c as int / 16), HexDigit(c as int % 16)]
    else [c]
  }

  function Escaped(s: Text): Text {
    if s == [] then [] else Escape(s[0]) + Escaped(s[1..])
  }

  /** The escapes (section 7 of RFC 8259): a letter where there is one, four hexadecimal digits for the other
      control characters, and nothing else. */
  lemma EscapeFormat(c: Octet, rest: Text)
    ensures var n := c as int;
      Escaped([c] + rest) == (
        if n == 34 then "\\\"" else if n == 92 then "\\\\" else if n == 8 then "\\b" else if n == 9 then "\\t"
        else if n == 10 then "\\n" else if n == 12 then "\\f" else if n == 13 then "\\r"
        else if n < 32 then "\\u00" + ["0123456789abcdef"[n / 16], "0123456789abcdef"[n % 16]]
        else [c]) + Escaped(rest)
    ensures Escaped([]) == []
  {
    assert ([c] + rest)[1..] == rest;
    if c as int < 32 {
      LowerHexTable(c as int / 16);
      LowerHexTable(c as int % 16);
    }
  }

  lemma LowerHexTable(n: nat)
    requires n < 16
    ensures HexDigit(n) == "0123456789abcdef"[n]
  {}

  /** One character of a string and the text after it. */
  datatype Char = Char(c: Octet, rest: Text)

  function ReadChar(s: Text): (r: Option<Char>)
    ensures r.Some? ==> |r.value.rest| < |s|
  {
    if s == [] || s[0] as int < 32 || s[0] == '\"' then None
    else if s[0] != '\\' then Some(Char(s[0], s[1..]))
    else if |s| >= 2 && Unescape(s[1]).Some? then Some(Char(Unescape(s[1]).value, s[2..]))
    else if |s| >= 6 && s[1] == 'u' && s[2] == '0' && s[3] == '0' && DigitValue(s[4]).Some? && DigitValue(s[5]).Some?
            && DigitValue(s[4]).value < 8 then
      Some(Char((16 * DigitValue(s[4]).value + DigitValue(s[5]).value) as char, s[6..]))
    else None
  }

  /** An escape past the ASCII octets, which the printer never writes, is refused. */
  lemma HighEscapeIsRefused(s: Text)
    requires |s| >= 6 && s[..4] == "\\u00" && DigitValue(s[4]).Some? && DigitValue(s[4]).value >= 8
    ensures ReadChar(s) == None
  {
    assert s[0] == s[..4][0] && s[1] == s[..4][1];
  }

  datatype Read<+T> = Read(value: T, rest: Text)

  /** What follows an opening quote, up to the closing one. */
  function ReadString(s: Text): (r: Option<Read<Text>>)
    ensures r.Some? ==> |r.value.rest| < |s|
    decreases |s|
  {
    if s != [] && s[0] == '\"' then Some(Read([], s[1..])) else
      var c := ReadChar(s);
      if c.None? then None else
        var r := ReadString(c.value.rest);
        if r.None? then None else Some(Read([c.value.c] + r.value.value, r.value.rest))
  }

  lemma ReadEscape(c: Octet, rest: Text)
    ensures ReadChar(Escape(c) + rest) == Some(Char(c, rest))
    ensures Escape(c)[0] != '\"'
  {
    var s := Escape(c) + rest;
    assert s[|Escape(c)|..] == rest;
  }

  lemma {:induction false} ReadEscaped(s: Text, rest: Text)
    ensures ReadString(Escaped(s) + (['\"'] + rest)) == Some(Read(s, rest))
  {
    var all := Escaped(s) + (['\"'] + rest);
    if s == [] {
      assert all == ['\"'] + rest;
      assert all[1..] == rest;
    } else {
      var tail := Escaped(s[1..]) + (['\"'] + rest);
      assert all == Escape(s[0]) + tail;
      ReadEscape(s[0], tail);
      ReadEscaped(s[1..], rest);
      assert [s[0]] + s[1..] == s;
    }
  }

  // --- Integers.

  predicate IsDigit(c: Octet) {
    '0' <= c <= '9'
  }

  function Decimal(n: nat): Text {
    if n < 10 then [(n + 48) as char] else Decimal(n / 10) + [(n % 10 + 48) as char]
  }

  function PrintInt(i: int): Text {
    if i < 0 then ['-'] + Decimal(-i) else Decimal(i)
  }

  /** How many digits a text starts with. */
  function DigitRun(s: Text): (k: nat)
    ensures k <= |s| && forall i :: 0 <= i < k ==> IsDigit(s[i])
  {
    if s != [] && IsDigit(s[0]) then 1 + DigitRun(s[1..]) else 0
  }

  function NumberOf(s: Text): nat
    requires forall i :: 0 <= i < |s| ==> IsDigit(s[i])
  {
    if s == [] then 0 else
      assert IsDigit(s[|s| - 1]);
      10 * NumberOf(s[..|s| - 1]) + (s[|s| - 1] as int - 48)
  }

  /** No superfluous zero in front, and no fraction or exponent behind: those make another type. */
  function ReadNat(s: Text): (r: Option<Read<nat>>)
    ensures r.Some? ==> |r.value.rest| < |s|
  {
    var k := DigitRun(s);
    if k == 0 || (k > 1 && s[0] == '0') then None
    else if k < |s| && (s[k] == '.' || s[k] == 'e' || s[k] == 'E') then None
    else Some(Read(NumberOf(s[..k]), s[k..]))
  }

  function ReadInt(s: Text): (r: Option<Read<int>>)
    ensures r.Some? ==> |r.value.rest| < |s|
  {
    if s != [] && s[0] == '-' then
      var r := ReadNat(s[1..]);
      if r.None? then None else
        var n: int := r.value.value;
        Some(Read(-n, r.value.rest))
    else ReadNat(s)
  }

  lemma {:induction false} DecimalIsNumber(n: nat)
    ensures var d := Decimal(n);
      && d != [] && (forall i :: 0 <= i < |d| ==> IsDigit(d[i]))
      && NumberOf(d) == n && (d[0] == '0' ==> |d| == 1)
  {
    if n >= 10 {
      DecimalIsNumber(n / 10);
      DecimalHead(n / 10);
      var d := Decimal(n);
      assert d[..|d| - 1] == Decimal(n / 10);
    }
  }

  lemma {:induction false} DecimalHead(n: nat)
    requires n > 0
    ensures Decimal(n)[0] != '0'
  {
    if n >= 10 {
      DecimalHead(n / 10);
    }
  }

  lemma {:induction false} RunOfDigits(d: Text, rest: Text)
    requires forall i :: 0 <= i < |d| ==> IsDigit(d[i])
    requires rest == [] || !IsDigit(rest[0])
    ensures DigitRun(d + rest) == |d|
  {
    if d == [] {
      assert d + rest == rest;
    } else {
      assert (d + rest)[1..] == d[1..] + rest;
      RunOfDigits(d[1..], rest);
    }
  }

  /** A value is followed by nothing, a comma or a brace. */
  predicate Ended(rest: Text) {
    rest == [] || rest[0] == ',' || rest[0] == '}'
  }

  lemma ReadDecimal(n: nat, rest: Text)
    requires Ended(rest)
    ensures ReadNat(Decimal(n) + rest) == Some(Read(n, rest))
  {
    var d := Decimal(n);
    DecimalIsNumber(n);
    RunOfDigits(d, rest);
    assert (d + rest)[..|d|] == d && (d + rest)[|d|..] == rest;
  }

  lemma ReadSigned(d: Text, n: nat, rest: Text)
    requires ReadNat(d + rest) == Some(Read(n, rest))
    ensures ReadInt((['-'] + d) + rest) == Some(Read(-(n as int), rest))
  {
    assert ((['-'] + d) + rest)[1..] == d + rest;
  }

  lemma ReadPrintedInt(i: int, rest: Text)
    requires Ended(rest)
    ensures ReadInt(PrintInt(i) + rest) == Some(Read(i, rest))
  {
    if i < 0 {
      ReadDecimal(-i, rest);
      ReadSigned(Decimal(-i), -i, rest);
    } else {
      ReadDecimal(i, rest);
      PrintedIntHead(i);
    }
  }

  lemma PrintedIntHead(i: int)
    ensures PrintInt(i) != [] && (if i < 0 then PrintInt(i)[0] == '-' else IsDigit(PrintInt(i)[0]))
  {
    if i >= 0 {
      DecimalIsNumber(i);
    }
  }

  // --- Values.

  const NULL: Text := ['n', 'u', 'l', 'l']

  function Print(v: Json): Text
    decreases v, 0
  {
    match v
    case Null => NULL
    case Int(i) => PrintInt(i)
    case Str(s) => ['\"'] + (Escaped(s) + ['\"'])
    case Obj(members) => ['{'] + (PrintMembers(v, 0) + ['}'])
  }

  function PrintMember(m: Member): Text
    decreases m, 1
  {
    ['\"'] + (Escaped(m.key) + (['\"', ':'] + Print(m.value)))
  }

  /** The members of an object from number `i`. */
  function PrintMembers(v: Json, i: nat): Text
    requires v.Obj?
    decreases v, 0, |v.members| - i
  {
    if i >= |v.members| then []
    else (if i > 0 then [','] else []) + (PrintMember(v.members[i]) + PrintMembers(v, i + 1))
  }

  function ReadValue(s: Text): (r: Option<Read<Json>>)
    ensures r.Some? ==> |r.value.rest| < |s|
    decreases |s|, 0
  {
    if s == [] then None
    else if s[0] == '\"' then
      var r := ReadString(s[1..]);
      if r.None? then None else Some(Read(Str(r.value.value), r.value.rest))
    else if s[0] == '{' then
      if |s| > 1 && s[1] == '}' then Some(Read(Obj([]), s[2..])) else
        var r := ReadMembers(s[1..]);
        if r.None? then None else Some(Read(Obj(r.value.value), r.value.rest))
    else if NULL <= s then Some(Read(Null, s[4..]))
    else
      var r := ReadInt(s);
      if r.None? then None else Some(Read(Int(r.value.value), r.value.rest))
  }

  function ReadMember(s: Text): (r: Option<Read<Member>>)
    ensures r.Some? ==> |r.value.rest| < |s|
    decreases |s|, 1
  {
    if s == [] || s[0] != '\"' then None else
      var k := ReadString(s[1..]);
      if k.None? || k.value.rest == [] || k.value.rest[0] != ':' then None else
        var v := ReadValue(k.value.rest[1..]);
        if v.None? then None else Some(Read(Member(k.value.value, v.value.value), v.value.rest))
  }

  /** What follows an opening brace, up to the closing one: at least one member. */
  function ReadMembers(s: Text): (r: Option<Read<seq<Member>>>)
    ensures r.Some? ==> |r.value.rest| < |s|
    decreases |s|, 2
  {
    var m := ReadMember(s);
    if m.None? || m.value.rest == [] then None
    else if m.value.rest[0] == '}' then Some(Read([m.value.value], m.value.rest[1..]))
    else if m.value.rest[0] != ',' then None
    else
      var r := ReadMembers(m.value.rest[1..]);
      if r.None? then None else Some(Read([m.value.value] + r.value.value, r.value.rest))
  }

  lemma ReadPrintedNull(rest: Text)
    ensures ReadValue(NULL + rest) == Some(Read(Null, rest))
  {
    assert (NULL + rest)[4..] == rest;
  }

  lemma ReadPrintedNumber(i: int, rest: Text)
    requires Ended(rest)
    ensures ReadValue(PrintInt(i) + rest) == Some(Read(Int(i), rest))
  {
    ReadPrintedInt(i, rest);
    PrintedIntHead(i);
  }

  lemma ReadPrintedString(t: Text, rest: Text)
    ensures ReadValue((['\"'] + (Escaped(t) + ['\"'])) + rest) == Some(Read(Str(t), rest))
  {
    ReadEscaped(t, rest);
    QuotedText(Escaped(t), rest);
    ReadQuoted((['\"'] + (Escaped(t) + ['\"'])) + rest, t, rest);
  }

  lemma QuotedText(escaped: Text, rest: Text)
    ensures var s := (['\"'] + (escaped + ['\"'])) + rest; s[0] == '\"' && s[1..] == escaped + (['\"'] + rest)
  {}

  lemma ReadQuoted(s: Text, t: Text, rest: Text)
    requires s != [] && s[0] == '\"' && ReadString(s[1..]) == Some(Read(t, rest))
    ensures ReadValue(s) == Some(Read(Str(t), rest))
  {}

  lemma ReadEmptyObject(rest: Text)
    ensures ReadValue((['{'] + ([] + ['}'])) + rest) == Some(Read(Obj([]), rest))
  {
    assert ((['{'] + ([] + ['}'])) + rest)[2..] == rest;
  }

  /** An object's text, once its members are known to be read. */
  lemma ReadBraced(inner: Text, members: seq<Member>, rest: Text)
    requires inner != [] && inner[0] == '\"' && ReadMembers(inner + (['}'] + rest)) == Some(Read(members, rest))
    ensures ReadValue((['{'] + (inner + ['}'])) + rest) == Some(Read(Obj(members), rest))
  {
    var s := (['{'] + (inner + ['}'])) + rest;
    assert s[1..] == inner + (['}'] + rest);
    assert s[1] == inner[0];
  }

  lemma {:induction false} ReadPrinted(v: Json, rest: Text)
    requires Ended(rest)
    ensures ReadValue(Print(v) + rest) == Some(Read(v, rest))
    decreases v, 0
  {
    match v {
      case Null => ReadPrintedNull(rest);
      case Int(i) => ReadPrintedNumber(i, rest);
      case Str(t) => ReadPrintedString(t, rest);
      case Obj(members) =>
        if members == [] {
          ReadEmptyObject(rest);
        } else {
          ReadPrintedMembers(v, 0, rest);
          assert PrintMembers(v, 0) == [] + Remaining(v, 0) == Remaining(v, 0);
          assert members[0..] == members;
          PrintedMemberHead(members[0]);
          ReadBraced(PrintMembers(v, 0), members, rest);
        }
    }
  }

  lemma PrintedMemberHead(m: Member)
    ensures PrintMember(m) != [] && PrintMember(m)[0] == '\"'
  {}

  lemma MemberText(escaped: Text, printed: Text, rest: Text)
    ensures var s := (['\"'] + (escaped + (['\"', ':'] + printed))) + rest;
      s[0] == '\"' && s[1..] == escaped + (['\"'] + ([':'] + (printed + rest)))
  {}

  lemma {:induction false} ReadPrintedMember(m: Member, rest: Text)
    requires Ended(rest)
    ensures ReadMember(PrintMember(m) + rest) == Some(Read(m, rest))
    decreases m, 1
  {
    ReadPrinted(m.value, rest);
    ReadEscaped(m.key, [':'] + (Print(m.value) + rest));
    MemberText(Escaped(m.key), Print(m.value), rest);
  }

  /** Without the comma in front. */
  function Remaining(v: Json, i: nat): Text
    requires v.Obj? && i < |v.members|
  {
    PrintMember(v.members[i]) + PrintMembers(v, i + 1)
  }

  lemma {:induction false} ReadPrintedMembers(v: Json, i: nat, rest: Text)
    requires v.Obj? && i < |v.members|
    ensures ReadMembers(Remaining(v, i) + (['}'] + rest)) == Some(Read(v.members[i..], rest))
    decreases v, 0, |v.members| - i
  {
    var m, s := v.members[i], Remaining(v, i) + (['}'] + rest);
    var after := PrintMembers(v, i + 1) + (['}'] + rest);
    assert s == PrintMember(m) + after;
    assert v.members[i..] == [m] + v.members[i + 1..];
    if i + 1 < |v.members| {
      var tail := Remaining(v, i + 1) + (['}'] + rest);
      assert after == [','] + tail;
      ReadPrintedMember(m, after);
      ReadPrintedMembers(v, i + 1, rest);
    } else {
      assert after == ['}'] + rest && v.members[i..] == [m];
      ReadPrintedMember(m, after);
    }
  }

  function Parse(s: Text): Option<Json> {
    var r := ReadValue(s);
    if r.None? || r.value.rest != [] then None else Some(r.value.value)
  }

  /** Reading undoes printing. */
  lemma ParsePrinted(v: Json)
    ensures Parse(Print(v)) == Some(v)
  {
    ReadPrinted(v, []);
    assert Print(v) + [] == Print(v);
  }
}
