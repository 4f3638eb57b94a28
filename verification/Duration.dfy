/** Durations such as "15m" and "30 d", in milliseconds. */
module Duration {
  import opened Common

  datatype Unit = Ms | S | M | H | D

  function UnitName(u: Unit): string {
    match u
    case Ms => "ms"
    case S => "s"
    case M => "m"
    case H => "h"
    case D => "d"
  }

  function UnitMs(u: Unit): nat {
    match u
    case Ms => 1
    case S => 1000
    case M => 60 * 1000
    case H => 60 * 60 * 1000
    case D => 24 * 60 * 60 * 1000
  }

  function UnitNamed(name: string): Option<Unit> {
    if name == "ms" then Some(Ms)
    else if name == "s" then Some(S)
    else if name == "m" then Some(M)
    else if name == "h" then Some(H)
    else if name == "d" then Some(D)
    else None
  }

  predicate IsDigit(c: char) {
    '0' <= c <= '9'
  }

  function DigitValue(c: char): nat {
    if IsDigit(c) then c as int - '0' as int else 0
  }

  /** The number that decimal digits write out. */
  function Value(digits: string): nat {
    if digits == "" then 0 else Value(digits[..|digits| - 1]) * 10 + DigitValue(digits[|digits| - 1])
  }

  /** What `trim` removes and `\s` matches: white space and line terminators of ECMA-262. */
  predicate IsSpace(c: char) {
    var u := c as int;
    || 0x09 <= u <= 0x0D || u == 0x20 || u == 0xA0 || u == 0x1680 || 0x2000 <= u <= 0x200A
    || u == 0x2028 || u == 0x2029 || u == 0x202F || u == 0x205F || u == 0x3000 || u == 0xFEFF
  }

  /** Among the ASCII characters these are the blank, the tab, the line feed, the vertical tab, the form feed
      and the carriage return. */
  lemma AsciiSpaces(c: char)
    requires c as int < 128
    ensures IsSpace(c) <==> c in [' ', '\t', '\n', '\U{0B}', '\U{0C}', '\r']
  {
  }

  predicate All(s: string, p: char -> bool) {
    forall i :: 0 <= i < |s| ==> p(s[i])
  }

  /** How far a greedy repetition of `p` reaches. */
  function Span(s: string, p: char -> bool): (n: nat)
    ensures n <= |s| && All(s[..n], p)
    ensures n < |s| ==> !p(s[n])
  {
    if s != "" && p(s[0]) then
      var n := Span(s[1..], p);
      assert s[..n + 1] == [s[0]] + s[1..][..n];
      n + 1
    else 0
  }

  function TrimEnd(s: string): (t: string)
    ensures t <= s && All(s[|t|..], IsSpace)
    ensures t != "" ==> !IsSpace(t[|t| - 1])
  {
    if s != "" && IsSpace(s[|s| - 1]) then
      var t := TrimEnd(s[..|s| - 1]);
      assert s[|t|..] == s[..|s| - 1][|t|..] + [s[|s| - 1]];
      t
    else s
  }

  function Trim(s: string): string {
    TrimEnd(s[Span(s, IsSpace)..])
  }

  /** The pattern, on trimmed text: digits, white space, and a unit up to the end. */
  function Read(text: string): Option<nat> {
    var digits := Span(text, IsDigit);
    var rest := text[digits..];
    var unit := UnitNamed(rest[Span(rest, IsSpace)..]);
    if digits == 0 || unit.None? then None else Some(Value(text[..digits]) * UnitMs(unit.value))
  }

  /** None for a string that is refused as no duration. */
  function ParseDurationMs(input: string): Option<nat> {
    Read(Trim(input))
  }

  // ---------------------------------------------------------------- what a duration is

  /** Digits, a unit, and white space around and between them. */
  ghost predicate Denotes(s: string, left: string, digits: string, middle: string, u: Unit, right: string) {
    && s == left + digits + middle + UnitName(u) + right
    && digits != "" && All(digits, IsDigit)
    && All(left, IsSpace) && All(middle, IsSpace) && All(right, IsSpace)
  }

  lemma {:induction false} SpanExactly(a: string, b: string, p: char -> bool)
    requires All(a, p) && (b != "" ==> !p(b[0]))
    ensures Span(a + b, p) == |a|
  {
    if a != "" {
      assert (a + b)[1..] == a[1..] + b;
      SpanExactly(a[1..], b, p);
    } else {
      assert a + b == b;
    }
  }

  lemma {:induction false} TrimEndExactly(a: string, b: string)
    requires a != "" && !IsSpace(a[|a| - 1]) && All(b, IsSpace)
    ensures TrimEnd(a + b) == a
  {
    if b != "" {
      assert (a + b)[..|a + b| - 1] == a + b[..|b| - 1];
      TrimEndExactly(a, b[..|b| - 1]);
    } else {
      assert a + b == a;
    }
  }

  lemma TrimExactly(left: string, text: string, right: string)
    requires All(left, IsSpace) && All(right, IsSpace)
    requires text != "" && !IsSpace(text[0]) && !IsSpace(text[|text| - 1])
    ensures Trim(left + text + right) == text
  {
    assert left + text + right == left + (text + right);
    SpanExactly(left, text + right, IsSpace);
    assert (left + text + right)[|left|..] == text + right;
    TrimEndExactly(text, right);
  }

  lemma UnitNames(u: Unit)
    ensures UnitName(u) != "" && UnitNamed(UnitName(u)) == Some(u)
    ensures forall c :: c in UnitName(u) ==> !IsSpace(c) && !IsDigit(c)
  {
  }

  lemma SpanOfRest(middle: string, u: Unit)
    requires All(middle, IsSpace)
    ensures
      var rest := middle + UnitName(u);
      && !IsDigit(rest[0])
      && Span(rest, IsSpace) == |middle| && rest[|middle|..] == UnitName(u)
  {
    var name, rest := UnitName(u), middle + UnitName(u);
    UnitNames(u);
    assert name[0] in name;
    assert rest[0] == if middle == "" then name[0] else middle[0];
    SpanExactly(middle, name, IsSpace);
  }

  lemma ReadReads(digits: string, middle: string, u: Unit)
    requires digits != "" && All(digits, IsDigit) && All(middle, IsSpace)
    ensures Read(digits + (middle + UnitName(u))) == Some(Value(digits) * UnitMs(u))
  {
    var rest := middle + UnitName(u);
    SpanOfRest(middle, u);
    SpanExactly(digits, rest, IsDigit);
    assert (digits + rest)[|digits|..] == rest && (digits + rest)[..|digits|] == digits;
    UnitNames(u);
  }

  /** Whatever can be read as a duration is read as that duration. */
  lemma ParseReads(s: string, left: string, digits: string, middle: string, u: Unit, right: string)
    requires Denotes(s, left, digits, middle, u, right)
    ensures ParseDurationMs(s) == Some(Value(digits) * UnitMs(u))
  {
    var name := UnitName(u);
    var text := digits + (middle + name);
    assert s == left + text + right;
    UnitNames(u);
    assert name[|name| - 1] in name;
    assert text[0] == digits[0] && text[|text| - 1] == name[|name| - 1];
    TrimExactly(left, text, right);
    ReadReads(digits, middle, u);
  }

  lemma UnitNamedBack(name: string)
    requires UnitNamed(name).Some?
    ensures UnitName(UnitNamed(name).value) == name
  {
  }

  lemma ReadTakesApart(text: string) returns (digits: string, middle: string, u: Unit)
    requires Read(text).Some?
    ensures text == digits + middle + UnitName(u)
    ensures digits != "" && All(digits, IsDigit) && All(middle, IsSpace)
    ensures Read(text) == Some(Value(digits) * UnitMs(u))
  {
    var n := Span(text, IsDigit);
    var rest := text[n..];
    var m := Span(rest, IsSpace);
    digits, middle := text[..n], rest[..m];
    u := UnitNamed(rest[m..]).value;
    UnitNamedBack(rest[m..]);
    assert text == digits + rest && rest == middle + rest[m..];
  }

  lemma PutBack(s: string, i: nat)
    requires i <= |s|
    ensures s == s[..i] + s[i..]
  {
  }

  lemma Associate(a: string, b: string, c: string)
    ensures a + (b + c) == a + b + c
  {
  }

  lemma TrimTakesApart(s: string) returns (left: string, right: string)
    ensures s == left + Trim(s) + right && All(left, IsSpace) && All(right, IsSpace)
  {
    var i := Span(s, IsSpace);
    var rest := s[i..];
    var t := TrimEnd(rest);
    left, right := s[..i], rest[|t|..];
    PutBack(s, i);
    PutBack(rest, |t|);
    Associate(left, t, right);
  }

  lemma Regroup(a: string, b: string, c: string, d: string, e: string)
    ensures a + (b + c + d) + e == a + b + c + d + e
  {
  }

  /** Whatever is read can be taken apart as a duration. */
  lemma ParseTakesApart(s: string)
    returns (left: string, digits: string, middle: string, u: Unit, right: string)
    requires ParseDurationMs(s).Some?
    ensures Denotes(s, left, digits, middle, u, right)
    ensures ParseDurationMs(s) == Some(Value(digits) * UnitMs(u))
  {
    left, right := TrimTakesApart(s);
    digits, middle, u := ReadTakesApart(Trim(s));
    Regroup(left, digits, middle, UnitName(u), right);
  }

  /** A string is accepted, with a given value, exactly when it is digits and a unit worth that much,
      with or without white space around and between them. */
  lemma ParseExactly(s: string, v: nat)
    ensures ParseDurationMs(s) == Some(v) <==>
            exists left, digits, middle, u, right ::
              Denotes(s, left, digits, middle, u, right) && v == Value(digits) * UnitMs(u)
  {
    if ParseDurationMs(s) == Some(v) {
      var left, digits, middle, u, right := ParseTakesApart(s);
      assert Denotes(s, left, digits, middle, u, right) && v == Value(digits) * UnitMs(u);
    }
    if left, digits, middle, u, right :|
       Denotes(s, left, digits, middle, u, right) && v == Value(digits) * UnitMs(u)
    {
      ParseReads(s, left, digits, middle, u, right);
    }
  }

  // ---------------------------------------------------------------- printing

  function Numeral(n: nat): string {
    if n < 10 then [Digit(n)] else Numeral(n / 10) + [Digit(n % 10)]
  }

  function Digit(d: nat): char
    requires d < 10
  {
    ('0' as int + d) as char
  }

  lemma ValueSnoc(s: string, c: char)
    requires IsDigit(c)
    ensures Value(s + [c]) == Value(s) * 10 + DigitValue(c)
  {
    assert (s + [c])[..|s|] == s;
  }

  lemma {:induction false} NumeralReadsBack(n: nat)
    ensures Numeral(n) != "" && All(Numeral(n), IsDigit) && Value(Numeral(n)) == n
  {
    if n < 10 {
      ValueSnoc("", Digit(n));
      assert "" + [Digit(n)] == [Digit(n)];
    } else {
      NumeralReadsBack(n / 10);
      ValueSnoc(Numeral(n / 10), Digit(n % 10));
    }
  }

  /** A printed number and unit read back as that many of the unit, so that "ms" in particular is never
      taken for minutes. */
  lemma ParsePrinted(n: nat, u: Unit, left: string, middle: string, right: string)
    requires All(left, IsSpace) && All(middle, IsSpace) && All(right, IsSpace)
    ensures ParseDurationMs(left + Numeral(n) + middle + UnitName(u) + right) == Some(n * UnitMs(u))
  {
    NumeralReadsBack(n);
    ParseReads(left + Numeral(n) + middle + UnitName(u) + right, left, Numeral(n), middle, u, right);
  }

  lemma EmptyEnds(a: string, b: string)
    ensures "" + a + "" + b + "" == a + b
  {
  }

  /** The units in numbers: a printed number of seconds, say, is that many thousand milliseconds. */
  lemma UnitInMilliseconds(n: nat, u: Unit)
    ensures
      var name := match u case Ms => "ms" case S => "s" case M => "m" case H => "h" case D => "d";
      var worth := match u case Ms => 1 case S => 1000 case M => 60000 case H => 3600000 case D => 86400000;
      ParseDurationMs(Numeral(n) + name) == Some(n * worth)
  {
    EmptyEnds(Numeral(n), UnitName(u));
    ParsePrinted(n, u, "", "", "");
  }

  lemma TwoDigits()
    ensures Numeral(15) == "15" && Numeral(30) == "30"
  {
    assert Numeral(1) == "1" && Numeral(3) == "3";
  }

  lemma Written(text: string, n: nat, u: Unit)
    requires text == Numeral(n) + UnitName(u)
    ensures ParseDurationMs(text) == Some(n * UnitMs(u))
  {
    UnitInMilliseconds(n, u);
  }

  /** Fifteen minutes and thirty days, as they are written. */
  lemma WrittenLifetimes(access: string, refresh: string)
    requires access == "15m" && refresh == "30d"
    ensures ParseDurationMs(access) == Some(900000)
    ensures ParseDurationMs(refresh) == Some(2592000000)
  {
    TwoDigits();
    Written(access, 15, M);
    Written(refresh, 30, D);
  }
}
