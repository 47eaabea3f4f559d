/** Business versions are decimal strings of any length, compared without turning them into numbers: once
    in Lua when a projection is published, once in Python when a snapshot asks what it covers. */
module DecimalText {
  import opened Options
  import opened PercentCodec
  import opened TextOrder

  predicate Digits(s: string) {
    forall i :: 0 <= i < |s| ==> '0' <= s[i] <= '9'
  }

  function Pow10(n: nat): (p: nat)
    ensures p >= 1
  {
    if n == 0 then 1 else 10 * Pow10(n - 1)
  }

  /** The number a digit string writes. */
  function Value(s: string): nat
    requires Digits(s)
  {
    if s == [] then 0 else (s[0] as int - 48) * Pow10(|s| - 1) + Value(s[1..])
  }

  function StripZeros(s: string): string {
    if s != [] && s[0] == '0' then StripZeros(s[1..]) else s
  }

  function Normalize(s: string): string {
    if StripZeros(s) == [] then "0" else StripZeros(s)
  }

  /** The Lua comparison. */
  predicate IsGreater(left: string, right: string) {
    var l, r := Normalize(left), Normalize(right);
    if |l| != |r| then |l| > |r| else LexLess(r, l)
  }

  /** Text as Python reads it: a missing or empty value is replaced before stripping. */
  function Read(value: Option<Text>, otherwise: Text): Text {
    Strip(if value.None? || value.value == [] then otherwise else value.value)
  }

  predicate IsNumber(s: string) {
    s != [] && Digits(s)
  }

  /** The Python comparison; a missing current version is 0, and either side not being a number covers
      nothing. */
  predicate Covers(applied: Option<Text>, current: Option<Text>) {
    var a, c := Read(applied, []), Read(current, ['0']);
    IsNumber(a) && IsNumber(c) && NotBehind(Normalize(a), Normalize(c))
  }

  /** Its last two lines, on normalised numbers. */
  predicate NotBehind(a: string, c: string) {
    if |a| != |c| then |a| > |c| else !LexLess(a, c)
  }

  lemma OneStep(x: nat, y: nat, p: nat)
    requires x < y
    ensures x * p + p <= y * p
  {
    var k := y - x - 1;
    assert y * p == (x + 1 + k) * p == x * p + p + k * p;
  }

  lemma {:induction false} ValueBound(s: string)
    requires Digits(s)
    ensures Value(s) < Pow10(|s|)
    ensures s != [] && s[0] != '0' ==> Value(s) >= Pow10(|s| - 1)
  {
    if s != [] {
      var d, p := s[0] as int - 48, Pow10(|s| - 1);
      ValueBound(s[1..]);
      OneStep(d, 10, p);
      if d > 0 {
        OneStep(0, d, p);
      }
    }
  }

  lemma {:induction false} StripKeepsValue(s: string)
    requires Digits(s)
    ensures var t := StripZeros(s);
      Digits(t) && Value(t) == Value(s) && (t == [] || t[0] != '0')
  {
    if s != [] && s[0] == '0' {
      StripKeepsValue(s[1..]);
    }
  }

  lemma NormalizeKeepsValue(s: string)
    requires Digits(s)
    ensures var t := Normalize(s);
      Digits(t) && t != [] && Value(t) == Value(s) && (t[0] == '0' ==> Value(t) == 0 && |t| == 1)
  {
    StripKeepsValue(s);
  }

  lemma {:induction false} PowMonotone(m: nat, n: nat)
    requires m <= n
    ensures Pow10(m) <= Pow10(n)
  {
    if m < n {
      PowMonotone(m, n - 1);
    }
  }

  /** Among digit strings of one length, byte order is numeric order. */
  lemma {:induction false} LexIff(a: string, b: string)
    requires Digits(a) && Digits(b) && |a| == |b|
    ensures LexLess(a, b) <==> Value(a) < Value(b)
  {
    if a != [] {
      var x, y, p := a[0] as int - 48, b[0] as int - 48, Pow10(|a| - 1);
      LexIff(a[1..], b[1..]);
      ValueBound(a[1..]);
      ValueBound(b[1..]);
      LeadingDigit(x, y, p, Value(a[1..]), Value(b[1..]));
    }
  }

  lemma LeadingDigit(x: nat, y: nat, p: nat, u: nat, v: nat)
    requires u < p && v < p
    ensures x * p + u < y * p + v <==> x < y || (x == y && u < v)
  {
    if x < y {
      OneStep(x, y, p);
    } else if y < x {
      OneStep(y, x, p);
    }
  }

  /** A longer normalised string is a larger number. */
  lemma LongerIsLarger(a: string, b: string)
    requires Digits(a) && Digits(b) && |a| > |b| > 0 && a[0] != '0'
    ensures Value(a) > Value(b)
  {
    ValueBound(a);
    ValueBound(b);
    PowMonotone(|b|, |a| - 1);
  }

  /** The Lua comparison is numeric, for any length and any leading zeros. */
  lemma IsGreaterIff(left: string, right: string)
    requires Digits(left) && Digits(right)
    ensures IsGreater(left, right) <==> Value(left) > Value(right)
  {
    NormalizeKeepsValue(left);
    NormalizeKeepsValue(right);
    var l, r := Normalize(left), Normalize(right);
    if |l| == |r| {
      LexIff(r, l);
    } else if |l| > |r| {
      LongerIsLarger(l, r);
    } else {
      LongerIsLarger(r, l);
    }
  }

  lemma NotBehindIff(applied: string, current: string)
    requires IsNumber(applied) && IsNumber(current)
    ensures NotBehind(Normalize(applied), Normalize(current)) <==> Value(applied) >= Value(current)
  {
    NormalizeKeepsValue(applied);
    NormalizeKeepsValue(current);
    var a, c := Normalize(applied), Normalize(current);
    if |a| == |c| {
      LexIff(a, c);
    } else if |a| > |c| {
      LongerIsLarger(a, c);
    } else {
      LongerIsLarger(c, a);
    }
  }

  /** Every number is written by some digits, all ten of them used. */
  lemma {:induction false} WrittenBy(n: nat) returns (s: string)
    ensures IsNumber(s) && Value(s) == n
  {
    if n < 10 {
      s := [(48 + n) as char];
      assert s[1..] == [];
    } else {
      var front := WrittenBy(n / 10);
      ValueAppend(front, (48 + n % 10) as char);
      s := front + [(48 + n % 10) as char];
    }
  }

  lemma {:induction false} ValueAppend(s: string, d: char)
    requires Digits(s) && '0' <= d <= '9'
    ensures Digits(s + [d]) && Value(s + [d]) == 10 * Value(s) + (d as int - 48)
  {
    if s == [] {
      assert [] + [d] == [d] && [d][1..] == [];
    } else {
      assert (s + [d])[1..] == s[1..] + [d] && (s + [d])[0] == s[0];
      ValueAppend(s[1..], d);
      TenTimes(s[0] as int - 48, Pow10(|s| - 1));
    }
  }

  lemma TenTimes(x: nat, p: nat)
    ensures x * (10 * p) == 10 * (x * p)
  {}

  /** A value given and not empty is read between its blanks, otherwise the replacement. */
  lemma ReadCases(v: Text, otherwise: Text)
    ensures v != [] ==> Read(Some(v), otherwise) == Strip(v)
    ensures Read(None, otherwise) == Read(Some([]), otherwise) == Strip(otherwise)
  {}

  /** So is the Python one, on what it reads; and between two numbers it is the negation of the Lua one the
      other way round. */
  lemma CoversIff(applied: Option<Text>, current: Option<Text>)
    ensures var a, c := Read(applied, []), Read(current, ['0']);
      && (Covers(applied, current) <==> IsNumber(a) && IsNumber(c) && Value(a) >= Value(c))
      && (IsNumber(a) && IsNumber(c) ==> Covers(applied, current) == !IsGreater(c, a))
  {
    var a, c := Read(applied, []), Read(current, ['0']);
    if IsNumber(a) && IsNumber(c) {
      NotBehindIff(a, c);
      IsGreaterIff(c, a);
    }
  }

  /** A missing or empty current version is covered by every number and by nothing else. */
  lemma MissingIsCoveredIff(applied: Option<Text>)
    ensures Covers(applied, None) <==> IsNumber(Read(applied, []))
    ensures Covers(applied, Some([])) == Covers(applied, None)
  {
    CoversIff(applied, None);
    StripStrips(['0']);
    assert Read(None, ['0']) == ['0'];
    assert Value(['0']) == 0;
  }
}
