/** The opaque page cursor: a JSON payload in URL-safe base64 (RFC 4648 section 5) without its padding, bound to
    the query it was issued for and to a lifetime. Both layers are undone exactly, padding restored, whatever
    texts the payload holds. */
module CursorCodec {
  import opened Options
  import opened PercentCodec
  import opened TextOrder
  import opened JsonText

  type Byte = n: int | 0 <= n < 256

  // --- Base64.

  function Sextet(n: nat): (c: Octet)
    requires n < 64
    ensures SextetValue(c) == Some(n) && c != '=' && !Blank(c)
  {
    if n < 26 then (n + 65) as char
    else if n < 52 then (n + 71) as char
    else if n < 62 then (n - 4) as char
    else if n == 62 then '-' else '_'
  }

  function SextetValue(c: Octet): (n: Option<nat>)
    ensures n.Some? ==> n.value < 64
  {
    if 'A' <= c <= 'Z' then Some(c as int - 65)
    else if 'a' <= c <= 'z' then Some(c as int - 71)
    else if '0' <= c <= '9' then Some(c as int + 4)
    else if c == '-' then Some(62)
    else if c == '_' then Some(63)
    else None
  }

  /** The alphabet for URLs (section 5 of RFC 4648): capital letters, small letters, digits, hyphen and
      underscore. */
  lemma Alphabet(n: nat)
    requires n < 64
    ensures Sextet(n) as int ==
      if n < 26 then 65 + n else if n < 52 then 97 + (n - 26) else if n < 62 then 48 + (n - 52) else if n == 62 then 45 else 95
  {}

  datatype Quad = Quad(a: nat, b: nat, c: nat, d: nat)
  datatype Bytes = Bytes(x: Byte, y: Byte, z: Byte)

  predicate Sextets(q: Quad) {
    q.a < 64 && q.b < 64 && q.c < 64 && q.d < 64
  }

  /** The 24 bits of three bytes as four sextets. */
  function Split(x: Byte, y: Byte, z: Byte): (q: Quad)
    ensures Sextets(q)
  {
    Quad(x / 4, x % 4 * 16 + y / 16, y % 16 * 4 + z / 64, z % 64)
  }

  function Join(q: Quad): Bytes
    requires Sextets(q)
  {
    Bytes(q.a * 4 + q.b / 16, q.b % 16 * 16 + q.c / 4, q.c % 4 * 64 + q.d)
  }

  lemma JoinSplit(x: Byte, y: Byte, z: Byte)
    ensures Join(Split(x, y, z)) == Bytes(x, y, z)
  {
    var q := Split(x, y, z);
    assert q.b / 16 == x % 4 && q.b % 16 == y / 16;
    assert q.c / 4 == y % 16 && q.c % 4 == z / 64;
  }

  function Group(q: Quad): (r: Text)
    requires Sextets(q)
    ensures |r| == 4
  {
    [Sextet(q.a), Sextet(q.b), Sextet(q.c), Sextet(q.d)]
  }

  function OneByte(q: Quad): (r: Text)
    requires Sextets(q)
    ensures |r| == 4
  {
    [Sextet(q.a), Sextet(q.b), '=', '=']
  }

  function TwoBytes(q: Quad): (r: Text)
    requires Sextets(q)
    ensures |r| == 4
  {
    [Sextet(q.a), Sextet(q.b), Sextet(q.c), '=']
  }

  function Groups(n: nat): nat {
    if n == 0 then 0 else if n <= 3 then 1 else 1 + Groups(n - 3)
  }

  function Encode(b: seq<Byte>): (s: Text)
    ensures |s| == 4 * Groups(|b|)
  {
    if b == [] then []
    else if |b| == 1 then OneByte(Split(b[0], 0, 0))
    else if |b| == 2 then TwoBytes(Split(b[0], b[1], 0))
    else Group(Split(b[0], b[1], b[2])) + Encode(b[3..])
  }

  function StripPadding(s: Text): Text {
    if s != [] && s[|s| - 1] == '=' then StripPadding(s[..|s| - 1]) else s
  }

  function Padding(n: nat): Text {
    if n == 0 then [] else Padding(n - 1) + ['=']
  }

  /** The remainder is never negative, as in the source's language. */
  function PadCount(n: int): (k: nat)
    ensures k < 4 && (n + k) % 4 == 0
  {
    (-n) % 4
  }

  function Pad(s: Text): Text {
    s + Padding(PadCount(|s|))
  }

  /** Groups of four; padding is accepted in the last group only. */
  function Decode(s: Text): Option<seq<Byte>> {
    if s == [] then Some([])
    else if |s| < 4 then None
    else
      var x, y := SextetValue(s[0]), SextetValue(s[1]);
      if x.None? || y.None? then None
      else if s[2] == '=' then
        if s[3] == '=' && |s| == 4 then Some([Join(Quad(x.value, y.value, 0, 0)).x]) else None
      else
        var z := SextetValue(s[2]);
        if z.None? then None
        else if s[3] == '=' then
          var t := Join(Quad(x.value, y.value, z.value, 0));
          if |s| == 4 then Some([t.x, t.y]) else None
        else
          var w, rest := SextetValue(s[3]), Decode(s[4..]);
          if w.None? || rest.None? then None else
            var t := Join(Quad(x.value, y.value, z.value, w.value));
            Some([t.x, t.y, t.z] + rest.value)
  }

  /** Padding before the end is refused. */
  lemma PaddingIsLast(s: Text)
    requires |s| > 4 && s[3] == '='
    ensures Decode(s) == None
  {}

  /** A full group followed by decodable text. */
  lemma DecodeGroup(q: Quad, rest: Text)
    requires Sextets(q) && Decode(rest).Some?
    ensures Decode(Group(q) + rest) == Some([Join(q).x, Join(q).y, Join(q).z] + Decode(rest).value)
  {
    assert (Group(q) + rest)[4..] == rest;
  }

  lemma DecodePair(q: Quad)
    ensures Sextets(q) && q.d == 0 ==> Decode(TwoBytes(q)) == Some([Join(q).x, Join(q).y])
  {}

  lemma DecodeSingle(q: Quad)
    ensures Sextets(q) && q.c == 0 && q.d == 0 ==> Decode(OneByte(q)) == Some([Join(q).x])
  {}

  lemma OneByteBack(x: Byte)
    ensures Decode(OneByte(Split(x, 0, 0))) == Some([x])
  {
    JoinSplit(x, 0, 0);
    DecodeSingle(Split(x, 0, 0));
  }

  lemma TwoBytesBack(x: Byte, y: Byte)
    ensures Decode(TwoBytes(Split(x, y, 0))) == Some([x, y])
  {
    JoinSplit(x, y, 0);
    DecodePair(Split(x, y, 0));
  }

  lemma GroupBack(x: Byte, y: Byte, z: Byte, rest: Text)
    requires Decode(rest).Some?
    ensures Decode(Group(Split(x, y, z)) + rest) == Some([x, y, z] + Decode(rest).value)
  {
    JoinSplit(x, y, z);
    DecodeGroup(Split(x, y, z), rest);
  }

  lemma {:induction false} DecodeEncode(b: seq<Byte>)
    ensures Decode(Encode(b)) == Some(b)
  {
    if |b| >= 3 {
      DecodeEncode(b[3..]);
      LongDecodes(b, Encode(b[3..]));
    } else {
      ShortDecodes(b);
    }
  }

  lemma LongDecodes(b: seq<Byte>, tail: Text)
    requires |b| >= 3 && tail == Encode(b[3..]) && Decode(tail) == Some(b[3..])
    ensures Decode(Encode(b)) == Some(b)
  {
    var q := Split(b[0], b[1], b[2]);
    GroupBack(b[0], b[1], b[2], tail);
    assert Encode(b) == Group(q) + tail;
    assert [b[0], b[1], b[2]] + b[3..] == b;
  }

  lemma ShortDecodes(b: seq<Byte>)
    requires |b| < 3
    ensures Decode(Encode(b)) == Some(b)
  {
    if |b| == 2 {
      TwoBytesBack(b[0], b[1]);
      assert [b[0], b[1]] == b;
    } else if |b| == 1 {
      OneByteBack(b[0]);
      assert [b[0]] == b;
    }
  }

  /** Stripping removes the padding alone: at most two characters, and no blank is left at either end. */
  predicate Trims(e: Text) {
    var u := StripPadding(e);
    && u <= e && |e| - |u| < 3 && e == u + Padding(|e| - |u|) && (e != [] ==> u != [])
    && (u != [] ==> !Blank(u[0]) && !Blank(u[|u| - 1]) && u[|u| - 1] != '=')
  }

  lemma {:induction false} EncodingTrims(b: seq<Byte>)
    ensures Trims(Encode(b)) && (b != [] ==> Encode(b) != [])
  {
    if |b| >= 3 {
      EncodingTrims(b[3..]);
      LongTrims(b, Encode(b[3..]));
    } else if b != [] {
      ShortTrims(b, Encode(b));
    }
  }

  lemma LongTrims(b: seq<Byte>, tail: Text)
    requires |b| >= 3 && tail == Encode(b[3..]) && Trims(tail)
    ensures Trims(Encode(b)) && Encode(b) != []
  {
    var head := Group(Split(b[0], b[1], b[2]));
    GroupTrims(head, tail);
    assert Encode(b) == head + tail;
  }

  lemma ShortTrims(b: seq<Byte>, e: Text)
    requires 1 <= |b| <= 2 && e == Encode(b)
    ensures Trims(e) && e != []
  {
    if |b| == 1 {
      TwoPadsTrim(e);
    } else {
      OnePadTrims(e);
    }
  }

  predicate Solid(c: Octet) {
    c != '=' && !Blank(c)
  }

  lemma TwoPadsTrim(e: Text)
    requires |e| == 4 && Solid(e[0]) && Solid(e[1]) && e[2] == e[3] == '='
    ensures Trims(e)
  {
    assert e[..3][..2] == e[..2];
    assert StripPadding(e) == StripPadding(e[..3]) == StripPadding(e[..2]) == e[..2];
    assert Padding(2) == Padding(1) + ['='] == ['=', '='];
  }

  lemma OnePadTrims(e: Text)
    requires |e| == 4 && Solid(e[0]) && Solid(e[1]) && Solid(e[2]) && e[3] == '='
    ensures Trims(e)
  {
    assert StripPadding(e) == StripPadding(e[..3]) == e[..3];
    assert Padding(1) == ['='];
  }

  lemma GroupTrims(head: Text, tail: Text)
    requires |head| == 4 && !Blank(head[0]) && !Blank(head[3]) && head[3] != '='
    requires Trims(tail)
    ensures Trims(head + tail)
  {
    var u := StripPadding(tail);
    if tail == [] {
      assert head + tail == head;
    } else {
      StripAppended(head, u, |tail| - |u|);
      assert head + (u + Padding(|tail| - |u|)) == head + u + Padding(|tail| - |u|);
    }
  }

  lemma {:induction false} StripAppended(head: Text, u: Text, n: nat)
    requires u != [] && u[|u| - 1] != '='
    ensures StripPadding(head + u + Padding(n)) == head + u
    decreases n
  {
    var s := head + u + Padding(n);
    if n == 0 {
      assert s == head + u;
    } else {
      assert s[..|s| - 1] == head + u + Padding(n - 1);
      StripAppended(head, u, n - 1);
    }
  }

  lemma PadRestores(e: Text, groups: nat)
    requires Trims(e) && |e| == 4 * groups
    ensures Pad(StripPadding(e)) == e && Strip(StripPadding(e)) == StripPadding(e)
  {
    var u := StripPadding(e);
    StripStrips(u);
    PadIs(u, |e| - |u|);
  }

  lemma PadIs(u: Text, k: nat)
    requires k < 4 && (|u| + k) % 4 == 0
    ensures Pad(u) == u + Padding(k)
  {
  }

  /** Stripping the padding, and blanks around the cursor, loses nothing. */
  lemma Base64RoundTrip(b: seq<Byte>)
    ensures var u := StripPadding(Encode(b));
      Strip(u) == u && (b != [] ==> u != []) && Decode(Pad(u)) == Some(b)
  {
    EncodingTrims(b);
    DecodeEncode(b);
    PadRestores(Encode(b), Groups(|b|));
  }

  // --- The payload.

  /** `filters` as the caller gives them; a null filter is absent text. */
  datatype Payload = Payload(kind: Text, beforeId: int, filters: map<Text, Option<Text>>, issuedAt: int)

  const BEFORE_ID: Text := "before_id"
  const FILTERS: Text := "filters"
  const ISSUED_AT: Text := "issued_at"
  const KIND: Text := "kind"
  const VERSION: Text := "v"

  const CURSOR_VERSION := 1

  function FilterValue(f: Option<Text>): Json {
    if f.None? then Null else Str(f.value)
  }

  /** Object members in the given order of keys. */
  function FilterMembers(filters: map<Text, Option<Text>>, keys: seq<Text>): seq<Member>
    requires forall k :: k in keys ==> k in filters
  {
    seq(|keys|, i requires 0 <= i < |keys| => Member(keys[i], FilterValue(filters[keys[i]])))
  }

  lemma SortedKeys(filters: map<Text, Option<Text>>)
    ensures forall k :: k in Sorted(filters.Keys) <==> k in filters
    ensures forall i :: 0 <= i < |Sorted(filters.Keys)| ==> Sorted(filters.Keys)[i] in filters
  {
    SortedSorts(filters.Keys);
  }

  /** The keys of the filters in order. */
  function KeysInOrder(filters: map<Text, Option<Text>>): (keys: seq<Text>)
    ensures forall k :: k in keys <==> k in filters
  {
    SortedKeys(filters);
    var keys := Sorted(filters.Keys);
    var texts := seq(|keys|, i requires 0 <= i < |keys| => Known(filters, keys[i]));
    assert texts == keys;
    texts
  }

  /** A key of the filters, as the text it is. */
  function Known(filters: map<Text, Option<Text>>, k: string): (t: Text)
    requires k in filters
    ensures t == k
  {
    k
  }

  /** Keys in sorted order, as the printer is told. */
  function ToJson(p: Payload): Json {
    Obj([Member(BEFORE_ID, Int(p.beforeId)),
         Member(FILTERS, Obj(FilterMembers(p.filters, KeysInOrder(p.filters)))),
         Member(ISSUED_AT, Int(p.issuedAt)),
         Member(KIND, Str(p.kind)),
         Member(VERSION, Int(CURSOR_VERSION))])
  }

  /** An object as a dictionary: of repeated keys the last counts. */
  function Dictionary(members: seq<Member>): map<Text, Json> {
    if members == [] then map[] else
      var last := members[|members| - 1];
      Dictionary(members[..|members| - 1])[last.key := last.value]
  }

  predicate IsFilter(v: Json) {
    v.Null? || v.Str?
  }

  function FilterOf(v: Json): Option<Text>
    requires IsFilter(v)
  {
    if v.Null? then None else Some(v.text)
  }

  /** The filters of an object; values of another type equal no expected filter. */
  function FiltersOf(d: map<Text, Json>): Option<map<Text, Option<Text>>> {
    if forall k :: k in d ==> IsFilter(d[k]) then Some(map k | k in d :: FilterOf(d[k])) else None
  }

  /** The checks of keys, version and types. */
  function FromJson(v: Json): Option<Payload> {
    if !v.Obj? then None else
      var d := Dictionary(v.members);
      if d.Keys != {BEFORE_ID, FILTERS, ISSUED_AT, KIND, VERSION} then None
      else if d[VERSION] != Int(CURSOR_VERSION) || !d[KIND].Str? || !d[BEFORE_ID].Int? || !d[ISSUED_AT].Int? || !d[FILTERS].Obj? then None
      else
        var filters := FiltersOf(Dictionary(d[FILTERS].members));
        if filters.None? then None
        else Some(Payload(d[KIND].text, d[BEFORE_ID].value, filters.value, d[ISSUED_AT].value))
  }

  lemma {:induction false} DictionaryOfFilters(filters: map<Text, Option<Text>>, keys: seq<Text>)
    requires forall k :: k in keys ==> k in filters
    ensures Dictionary(FilterMembers(filters, keys)) == map k | k in keys :: FilterValue(filters[k])
  {
    if keys != [] {
      var front := keys[..|keys| - 1];
      assert keys == front + [keys[|keys| - 1]];
      DictionaryOfFilters(filters, front);
      var members := FilterMembers(filters, keys);
      assert members[..|members| - 1] == FilterMembers(filters, front);
    }
  }

  lemma FiltersBack(filters: map<Text, Option<Text>>)
    ensures FiltersOf(Dictionary(FilterMembers(filters, KeysInOrder(filters)))) == Some(filters)
  {
    var keys := KeysInOrder(filters);
    DictionaryOfFilters(filters, keys);
    var d := Dictionary(FilterMembers(filters, keys));
    assert d.Keys == filters.Keys;
    forall k | k in d ensures IsFilter(d[k]) && FilterOf(d[k]) == filters[k] {
      assert d[k] == FilterValue(filters[k]);
    }
    assert (map k | k in d :: FilterOf(d[k])) == filters;
  }

  /** An object of five distinct members. */
  lemma DictionaryOfFive(a: Member, b: Member, c: Member, d: Member, e: Member)
    ensures Dictionary([a, b, c, d, e]) == map[][a.key := a.value][b.key := b.value][c.key := c.value][d.key := d.value][e.key := e.value]
  {
    assert [a, b, c, d, e][..4] == [a, b, c, d];
    assert [a, b, c, d][..3] == [a, b, c];
    assert [a, b, c][..2] == [a, b];
    assert [a, b][..1] == [a];
    assert [a][..0] == [];
    assert Dictionary([a]) == map[][a.key := a.value];
    assert Dictionary([a, b]) == map[][a.key := a.value][b.key := b.value];
    assert Dictionary([a, b, c]) == map[][a.key := a.value][b.key := b.value][c.key := c.value];
  }

  /** The object printed: five members under their names in order, the version being 1; an object of any other
      version is refused. */
  lemma PayloadFormat(p: Payload, version: int)
    ensures ToJson(p).members[..4] == [
      Member("before_id", Int(p.beforeId)), Member("filters", Obj(FilterMembers(p.filters, KeysInOrder(p.filters)))),
      Member("issued_at", Int(p.issuedAt)), Member("kind", Str(p.kind))]
    ensures ToJson(p).members[4..] == [Member("v", Int(1))]
    ensures version != 1 ==> FromJson(Obj(ToJson(p).members[..4] + [Member("v", Int(version))])) == None
  {
    var m := ToJson(p).members;
    assert m[..4] + [Member("v", Int(version))] == [m[0], m[1], m[2], m[3], Member("v", Int(version))];
    DictionaryOfFive(m[0], m[1], m[2], m[3], Member("v", Int(version)));
  }

  lemma FromToJson(p: Payload)
    ensures FromJson(ToJson(p)) == Some(p)
  {
    PayloadDictionary(p);
    FiltersBack(p.filters);
  }

  lemma PayloadDictionary(p: Payload)
    ensures var d := Dictionary(ToJson(p).members);
      && d.Keys == {BEFORE_ID, FILTERS, ISSUED_AT, KIND, VERSION}
      && d[BEFORE_ID] == Int(p.beforeId) && d[ISSUED_AT] == Int(p.issuedAt) && d[KIND] == Str(p.kind) && d[VERSION] == Int(CURSOR_VERSION)
      && d[FILTERS] == Obj(FilterMembers(p.filters, KeysInOrder(p.filters)))
  {
    var filters := Obj(FilterMembers(p.filters, KeysInOrder(p.filters)));
    DictionaryOfFive(Member(BEFORE_ID, Int(p.beforeId)), Member(FILTERS, filters), Member(ISSUED_AT, Int(p.issuedAt)),
                     Member(KIND, Str(p.kind)), Member(VERSION, Int(CURSOR_VERSION)));
  }

  // --- The cursor.

  function Octets(s: Text): seq<Byte> {
    seq(|s|, i requires 0 <= i < |s| => s[i] as int)
  }

  function FromOctets(b: seq<Byte>): Text {
    seq(|b|, i requires 0 <= i < |b| => b[i] as char)
  }

  lemma OctetsBack(s: Text)
    ensures FromOctets(Octets(s)) == s
  {}

  datatype Result = Decoded(beforeId: int, issuedAt: int) | InvalidCursor | CursorExpired

  const CLOCK_SKEW := 60

  function EncodeCursor(p: Payload): Text {
    StripPadding(Encode(Octets(Print(ToJson(p)))))
  }

  /** From the text to the payload it carries, if it carries one. */
  function ReadPayload(cursor: Text): Option<Payload> {
    var normalized := Strip(cursor);
    if normalized == [] then None else
      var raw := Decode(Pad(normalized));
      if raw.None? then None else
        var v := Parse(FromOctets(raw.value));
        if v.None? then None else FromJson(v.value)
  }

  function DecodeCursor(cursor: Text, kind: Text, filters: map<Text, Option<Text>>, maxAge: int, now: int): Result {
    var payload := ReadPayload(cursor);
    if payload.None? then InvalidCursor else
      var p := payload.value;
      if p.kind != kind || p.beforeId <= 0 || p.filters != filters then InvalidCursor
      else if p.issuedAt > now + CLOCK_SKEW then InvalidCursor
      else if now - p.issuedAt > maxAge then CursorExpired
      else Decoded(p.beforeId, p.issuedAt)
  }

  lemma PayloadRoundTrip(p: Payload)
    ensures ReadPayload(EncodeCursor(p)) == Some(p)
  {
    var text := Print(ToJson(p));
    Base64RoundTrip(Octets(text));
    OctetsBack(text);
    ParsePrinted(ToJson(p));
    FromToJson(p);
    assert text != [];
  }

  /** A cursor gives back its position to the query it was issued for, within its lifetime, and to no other
      query and at no other time. */
  lemma CursorRoundTrip(p: Payload, kind: Text, filters: map<Text, Option<Text>>, maxAge: int, now: int)
    ensures DecodeCursor(EncodeCursor(p), kind, filters, maxAge, now) ==
      if p.kind != kind || p.filters != filters || p.beforeId <= 0 || p.issuedAt > now + 60 then InvalidCursor
      else if now > p.issuedAt + maxAge then CursorExpired
      else Decoded(p.beforeId, p.issuedAt)
  {
    PayloadRoundTrip(p);
  }
}
