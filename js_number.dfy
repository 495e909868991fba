/**
  * The two JavaScript number conversions the scanner relies on:
  * `parseInt(data, 10)` turning a scanned payload into an item id
  * (ECMA-262, section 19.2.5, "parseInt ( string, radix )"), and the
  * conversion of an integer back to its decimal text, which is what a
  * template literal such as `${id}` produces (ECMA-262, section 6.1.6.1.20,
  * "Number::toString").  Numbers are mathematical integers here.
  */
module JsNumber {
  import opened Wrappers

  /** StrWhiteSpaceChar: the white space and line terminators that
      parseInt skips before the number. */
  predicate IsWhiteSpace(c: char) {
    var k := c as int;
    k == 0x09 || k == 0x0A || k == 0x0B || k == 0x0C || k == 0x0D ||
    k == 0x20 || k == 0xA0 || k == 0x1680 || (0x2000 <= k <= 0x200A) ||
    k == 0x2028 || k == 0x2029 || k == 0x202F || k == 0x205F ||
    k == 0x3000 || k == 0xFEFF
  }

  /** A radix-10 digit. */
  predicate IsDigit(c: char) {
    '0' <= c <= '9'
  }

  predicate IsSign(c: char) {
    c == '+' || c == '-'
  }

  predicate AllWhiteSpace(s: string) {
    forall i :: 0 <= i < |s| ==> IsWhiteSpace(s[i])
  }

  predicate AllDigits(s: string) {
    forall i :: 0 <= i < |s| ==> IsDigit(s[i])
  }

  function DigitValue(c: char): (v: nat)
    requires IsDigit(c)
    ensures v < 10
  {
    c as int - '0' as int
  }

  function DigitChar(v: nat): (c: char)
    requires v < 10
    ensures IsDigit(c) && DigitValue(c) == v
  {
    ('0' as int + v) as char
  }

  /** The mathematical value of a run of decimal digits, most significant first. */
  function DigitsValue(d: string): nat
    requires AllDigits(d)
  {
    if d == [] then 0 else DigitsValue(d[..|d| - 1]) * 10 + DigitValue(d[|d| - 1])
  }

  /** The number of white space characters at the start of `s`. */
  function WhiteSpacePrefixLength(s: string): (n: nat)
    ensures n <= |s| && AllWhiteSpace(s[..n])
    ensures n == |s| || !IsWhiteSpace(s[n])
  {
    if s != [] && IsWhiteSpace(s[0]) then 1 + WhiteSpacePrefixLength(s[1..]) else 0
  }

  /** What is left of `s` once its leading white space is removed. */
  function TrimStart(s: string): (r: string)
    ensures |r| <= |s| && r == s[|s| - |r|..]
    ensures AllWhiteSpace(s[..|s| - |r|])
    ensures r == [] || !IsWhiteSpace(r[0])
  {
    s[WhiteSpacePrefixLength(s)..]
  }

  /** The length of the longest prefix of `s` made of decimal digits. */
  function DigitPrefixLength(s: string): (n: nat)
    ensures n <= |s| && AllDigits(s[..n])
    ensures n == |s| || !IsDigit(s[n])
  {
    if s != [] && IsDigit(s[0]) then 1 + DigitPrefixLength(s[1..]) else 0
  }

  /** The digits at the start of `u` as a natural number, or `None` when
      `u` does not start with a digit. */
  function ParseDigits(u: string): Option<nat> {
    var n := DigitPrefixLength(u);
    if n == 0 then None else Some(DigitsValue(u[..n]))
  }

  /** A magnitude under the sign character `c`. */
  function ApplySign(c: char, magnitude: Option<nat>): Option<int> {
    match magnitude
    case None => None
    case Some(m) => if c == '-' then Some(-(m as int)) else Some(m)
  }

  /** The optional sign at the start of `t`, then its digits. */
  function ParseSigned(t: string): Option<int> {
    if t != [] && IsSign(t[0]) then ApplySign(t[0], ParseDigits(t[1..]))
    else match ParseDigits(t)
      case None => None
      case Some(m) => Some(m)
  }

  /** `parseInt(s, 10)`: skip white space, take an optional sign, then the
      longest run of decimal digits; `None` stands for NaN (no digits). */
  function ParseInt(s: string): Option<int> {
    ParseSigned(TrimStart(s))
  }

  /** The shortest decimal text of a natural number. */
  function Decimal(n: nat): (s: string)
    ensures |s| > 0 && AllDigits(s)
    ensures (s[0] == '0') == (n == 0)
    ensures |s| > 1 ==> s[0] != '0'
  {
    if n < 10 then [DigitChar(n)] else Decimal(n / 10) + [DigitChar(n % 10)]
  }

  /** The text of an integer as JavaScript prints it: a minus sign for a
      negative value, then its decimal digits. */
  function NumberToString(i: int): (s: string)
    ensures |s| > 0 && (IsDigit(s[0]) || s[0] == '-')
    ensures forall k :: 0 <= k < |s| ==> IsDigit(s[k]) || s[k] == '-'
    ensures (s[0] == '-') == (i < 0)
    ensures var start := if i < 0 then 1 else 0;
      start < |s| && (forall k :: start <= k < |s| ==> IsDigit(s[k])) &&
      (s[start] == '0') == (i == 0) && (|s| > start + 1 ==> s[start] != '0')
  {
    if i < 0 then ['-'] + Decimal(-i) else Decimal(i)
  }

  /** A string in which parseInt finds no digits, after white space and an
      optional sign. */
  ghost predicate NoLeadingInteger(s: string) {
    forall i :: 0 <= i < |s| && AllWhiteSpace(s[..i]) ==>
      !IsDigit(s[i]) && (IsSign(s[i]) && i + 1 < |s| ==> !IsDigit(s[i + 1]))
  }

  /** The decimal text of `n` reads back as `n`. */
  lemma {:induction false} DecimalValue(n: nat)
    ensures DigitsValue(Decimal(n)) == n
  {
    if n >= 10 {
      var d := Decimal(n);
      assert d[..|d| - 1] == Decimal(n / 10);
      DecimalValue(n / 10);
    }
  }

  lemma {:induction false} TrimStartSkips(ws: string, x: string)
    requires AllWhiteSpace(ws)
    requires x == [] || !IsWhiteSpace(x[0])
    ensures TrimStart(ws + x) == x
  {
    if ws != [] {
      assert (ws + x)[1..] == ws[1..] + x;
      TrimStartSkips(ws[1..], x);
    }
  }

  lemma {:induction false} DigitPrefixStops(d: string, rest: string)
    requires AllDigits(d)
    requires rest == [] || !IsDigit(rest[0])
    ensures DigitPrefixLength(d + rest) == |d|
  {
    if d != [] {
      assert (d + rest)[1..] == d[1..] + rest;
      DigitPrefixStops(d[1..], rest);
    }
  }

  lemma ParseDigitsStops(d: string, rest: string)
    requires d != [] && AllDigits(d)
    requires rest == [] || !IsDigit(rest[0])
    ensures ParseDigits(d + rest) == Some(DigitsValue(d))
  {
    DigitPrefixStops(d, rest);
    assert (d + rest)[..|d|] == d;
  }

  /** Nothing, a plus sign or a minus sign. */
  predicate IsOptionalSign(sign: string) {
    |sign| <= 1 && (sign != [] ==> IsSign(sign[0]))
  }

  /** The value of `digits` under an optional sign. */
  function Signed(sign: string, digits: string): int
    requires AllDigits(digits)
  {
    if sign != [] && sign[0] == '-' then 0 - DigitsValue(digits) else DigitsValue(digits)
  }

  lemma DigitIsNotSign(c: char)
    requires IsDigit(c)
    ensures !IsSign(c) && !IsWhiteSpace(c)
  {
  }

  lemma ParseSignedReads(sign: string, digits: string, rest: string)
    requires IsOptionalSign(sign)
    requires digits != [] && AllDigits(digits)
    requires rest == [] || !IsDigit(rest[0])
    ensures ParseSigned(sign + digits + rest) == Some(Signed(sign, digits))
  {
    var u := digits + rest;
    var x := sign + u;
    assert sign + digits + rest == x;
    ParseDigitsStops(digits, rest);
    if sign == [] {
      assert x == u && x[0] == digits[0];
      DigitIsNotSign(digits[0]);
      assert ParseDigits(x) == Some(DigitsValue(digits));
      assert ParseSigned(x) == Some(DigitsValue(digits));
    } else {
      assert x[0] == sign[0] && x[1..] == u;
      assert ParseSigned(x) == ApplySign(sign[0], Some(DigitsValue(digits)));
    }
  }

  /** parseInt as a reference definition: white space, an optional sign,
      a non-empty run of digits and anything that does not start with a
      digit read as the signed value of the digits. */
  lemma ParseIntReads(ws: string, sign: string, digits: string, rest: string)
    requires AllWhiteSpace(ws)
    requires IsOptionalSign(sign)
    requires digits != [] && AllDigits(digits)
    requires rest == [] || !IsDigit(rest[0])
    ensures ParseInt(ws + sign + digits + rest) == Some(Signed(sign, digits))
  {
    var x := sign + digits + rest;
    assert ws + sign + digits + rest == ws + x;
    assert x[0] == if sign == [] then digits[0] else sign[0];
    TrimStartSkips(ws, x);
    ParseSignedReads(sign, digits, rest);
  }

  /** The id written into a query string by `${id}` reads back through
      parseInt as the same id, whatever white space precedes it and
      whatever non-digit text follows it. */
  lemma ParseIntOfNumberToString(ws: string, i: int, rest: string)
    requires AllWhiteSpace(ws)
    requires rest == [] || !IsDigit(rest[0])
    ensures ParseInt(ws + NumberToString(i) + rest) == Some(i)
  {
    var x := NumberToString(i) + rest;
    assert ws + NumberToString(i) + rest == ws + x;
    assert x[0] == NumberToString(i)[0];
    TrimStartSkips(ws, x);
    var sign: string, m: nat := if i < 0 then ['-'] else [], if i < 0 then -i else i;
    DecimalValue(m);
    assert NumberToString(i) == sign + Decimal(m);
    ParseSignedReads(sign, Decimal(m), rest);
  }

  /** The text of an integer alone reads back as that integer. */
  lemma ParseIntOfText(i: int)
    ensures ParseInt(NumberToString(i)) == Some(i)
  {
    ParseIntOfNumberToString([], i, []);
    assert [] + NumberToString(i) + [] == NumberToString(i);
  }

  /** Where parseInt's digits would start: after the white space, and
      after the sign when there is one. */
  lemma NumberStart(s: string) returns (k: nat)
    ensures k <= |s| && AllWhiteSpace(s[..k])
    ensures TrimStart(s) == s[k..]
    ensures k == |s| || !IsWhiteSpace(s[k])
  {
    var t := TrimStart(s);
    k := |s| - |t|;
  }

  /** parseInt gives NaN exactly when no digit follows the leading white
      space and the optional sign. */
  lemma ParseIntNaN(s: string)
    ensures ParseInt(s) == None <==> NoLeadingInteger(s)
  {
    var k := NumberStart(s);
    if ParseInt(s) == None {
      NaNHasNoDigits(s, k);
    } else {
      var t := s[k..];
      SignedNaN(t);
      assert t[0] == s[k] && (|t| > 1 ==> t[1] == s[k + 1]);
      DigitsAt(s, k);
    }
  }

  /** A digit, or a sign and a digit, right after the leading white space
      is a leading integer. */
  lemma DigitsAt(s: string, k: nat)
    requires k < |s| && AllWhiteSpace(s[..k])
    requires IsDigit(s[k]) || (IsSign(s[k]) && k + 1 < |s| && IsDigit(s[k + 1]))
    ensures !NoLeadingInteger(s)
  {
  }

  /** Once white space is skipped, parseInt gives NaN exactly when neither
      the first character nor, after a sign, the second one is a digit. */
  lemma SignedNaN(t: string)
    ensures ParseSigned(t) == None <==>
      (t == [] || (!IsDigit(t[0]) && (IsSign(t[0]) && |t| > 1 ==> !IsDigit(t[1]))))
  {
    if t != [] && IsSign(t[0]) && |t| > 1 {
      assert t[1..][0] == t[1];
    }
  }

  lemma NaNHasNoDigits(s: string, k: nat)
    requires k <= |s| && AllWhiteSpace(s[..k])
    requires TrimStart(s) == s[k..]
    requires k == |s| || !IsWhiteSpace(s[k])
    requires ParseInt(s) == None
    ensures NoLeadingInteger(s)
  {
    SignedNaN(s[k..]);
    forall i | k < i <= |s| ensures !AllWhiteSpace(s[..i]) {
      assert s[..i][k] == s[k];
    }
    forall i | 0 <= i < |s| && AllWhiteSpace(s[..i])
      ensures !IsDigit(s[i]) && (IsSign(s[i]) && i + 1 < |s| ==> !IsDigit(s[i + 1]))
    {
      if i < k {
        assert s[..k][i] == s[i];
      } else {
        assert i == k;
        assert s[k..][0] == s[k];
        assert i + 1 < |s| ==> s[k..][1] == s[k + 1];
      }
    }
  }
}
