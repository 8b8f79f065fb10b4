/**
 * The JavaScript string and number built-ins that the modelled code relies on,
 * restated over `string` (a `seq<char>`):
 *   - `toLowerCase` (ASCII letters only),
 *   - `startsWith`, `indexOf` and `replace` with a one-character pattern,
 *   - `slice` with negative offsets,
 *   - `parseInt` with and without an explicit radix of 10,
 *   - the decimal rendering of an integer that template literals produce.
 * JavaScript numbers are modelled as unbounded integers.
 */
module JsString {

  // ------------------------------------------------------------------ case

  /** `toLowerCase` on one character, for the ASCII letters only. */
  function LowerChar(c: char): char {
    if 'A' <= c <= 'Z' then (c as int + 32) as char else c
  }

  function ToLower(s: string): (r: string)
    ensures |r| == |s|
    ensures forall i :: 0 <= i < |s| ==> r[i] == LowerChar(s[i])
  {
    seq(|s|, i requires 0 <= i < |s| => LowerChar(s[i]))
  }

  /** `a.toLowerCase() === b.toLowerCase()` */
  predicate SameIgnoringCase(a: string, b: string) {
    ToLower(a) == ToLower(b)
  }

  predicate StartsWith(s: string, prefix: string) {
    |prefix| <= |s| && s[..|prefix|] == prefix
  }

  // ---------------------------------------------------------------- search

  /** `s.indexOf(c)`: the first position holding `c`, or -1 when there is none. */
  function IndexOf(s: string, c: char): (i: int)
    ensures -1 <= i < |s|
    ensures i == -1 <==> c !in s
    ensures 0 <= i ==> s[i] == c && c !in s[..i]
  {
    if |s| == 0 then -1
    else if s[0] == c then 0
    else
      var j := IndexOf(s[1..], c);
      assert s == [s[0]] + s[1..];
      if j < 0 then -1
      else
        assert s[..j + 1] == [s[0]] + s[1..][..j];
        j + 1
  }

  /** `s.replace(c, '')` with a one-character string pattern: only the first occurrence goes. */
  function RemoveFirst(s: string, c: char): (r: string)
    ensures c !in s ==> r == s
    ensures c in s ==> |r| == |s| - 1 && multiset(r) + multiset{c} == multiset(s)
    ensures forall x :: x in r ==> x in s
  {
    var i := IndexOf(s, c);
    if i < 0 then s
    else
      assert s == s[..i] + [c] + s[i + 1..];
      s[..i] + s[i + 1..]
  }

  // ------------------------------------------------------------ white space

  /** The characters `parseInt` skips before the number: ECMAScript's white space and line terminators. */
  predicate IsWhiteSpace(c: char) {
    var n := c as int;
    n == 0x09 || n == 0x0A || n == 0x0B || n == 0x0C || n == 0x0D || n == 0x20 || n == 0xA0
    || n == 0x1680 || (0x2000 <= n <= 0x200A) || n == 0x2028 || n == 0x2029 || n == 0x202F
    || n == 0x205F || n == 0x3000 || n == 0xFEFF
  }

  /** Number of leading white-space characters. */
  function LeadingWhiteSpace(s: string): (k: nat)
    ensures k <= |s|
    ensures forall i :: 0 <= i < k ==> IsWhiteSpace(s[i])
    ensures k < |s| ==> !IsWhiteSpace(s[k])
  {
    if |s| == 0 || !IsWhiteSpace(s[0]) then 0 else 1 + LeadingWhiteSpace(s[1..])
  }

  // ---------------------------------------------------------------- digits

  datatype Base = Decimal | Hex

  function Radix(b: Base): nat {
    if b == Decimal then 10 else 16
  }

  predicate IsDecimalDigit(c: char) {
    '0' <= c <= '9'
  }

  predicate IsDigit(c: char, b: Base) {
    IsDecimalDigit(c) || (b == Hex && ('a' <= c <= 'f' || 'A' <= c <= 'F'))
  }

  function DigitValue(c: char, b: Base): (d: nat)
    requires IsDigit(c, b)
    ensures d < Radix(b)
  {
    if IsDecimalDigit(c) then c as int - '0' as int
    else if 'a' <= c <= 'f' then c as int - 'a' as int + 10
    else c as int - 'A' as int + 10
  }

  predicate AllDigits(s: string, b: Base) {
    forall i :: 0 <= i < |s| ==> IsDigit(s[i], b)
  }

  /** Length of the longest prefix of `s` made of digits of base `b`. */
  function DigitRun(s: string, b: Base): (k: nat)
    ensures k <= |s|
    ensures forall i :: 0 <= i < k ==> IsDigit(s[i], b)
    ensures k < |s| ==> !IsDigit(s[k], b)
  {
    if |s| == 0 || !IsDigit(s[0], b) then 0 else 1 + DigitRun(s[1..], b)
  }

  /** The value of a digit string, most significant digit first. */
  function ValueOf(digits: string, b: Base): nat
    requires AllDigits(digits, b)
  {
    if |digits| == 0 then 0
    else ValueOf(digits[..|digits| - 1], b) * Radix(b) + DigitValue(digits[|digits| - 1], b)
  }

  // -------------------------------------------------------------- parseInt

  /** The second argument of `parseInt`: left out, or the literal 10. */
  datatype RadixArg = NoRadix | Radix10

  /** A JavaScript number produced by `parseInt`: NaN or an integer. */
  datatype Parsed = NaN | Num(value: int)

  /**
   * `parseInt(s)` / `parseInt(s, 10)`: skip leading white space, read one optional
   * sign, then the unsigned digits; NaN when there are none.
   */
  function ParseInt(s: string, radix: RadixArg): (r: Parsed)
    ensures r.Num? && '-' !in s ==> r.value >= 0
  {
    var t := s[LeadingWhiteSpace(s)..];
    if |t| > 0 && t[0] == '-' then
      assert s[LeadingWhiteSpace(s)] == '-';
      Negate(ParseUnsigned(t[1..], radix))
    else if |t| > 0 && t[0] == '+' then ParseUnsigned(t[1..], radix)
    else ParseUnsigned(t, radix)
  }

  /** Unary minus on a parsed number; NaN stays NaN. */
  function Negate(p: Parsed): Parsed {
    match p
    case NaN => NaN
    case Num(v) => Num(-v)
  }

  /**
   * The part of `parseInt` after the sign: a `0x`/`0X` prefix selects base 16 when
   * no radix is given, then the longest run of digits is read; NaN when it is empty.
   */
  function ParseUnsigned(u: string, radix: RadixArg): (r: Parsed)
    ensures r.Num? ==> r.value >= 0
  {
    var hex := radix == NoRadix && |u| >= 2 && u[0] == '0' && (u[1] == 'x' || u[1] == 'X');
    var b := if hex then Hex else Decimal;
    var w := if hex then u[2..] else u;
    var k := DigitRun(w, b);
    assert AllDigits(w[..k], b);
    if k == 0 then NaN else Num(ValueOf(w[..k], b))
  }

  // ------------------------------------------------------- number to text

  function DigitChar(d: nat): (c: char)
    requires d < 10
    ensures IsDecimalDigit(c) && DigitValue(c, Decimal) == d
  {
    ('0' as int + d) as char
  }

  /** `String(n)` for a natural number: its shortest decimal digit string. */
  function NatToString(n: nat): (s: string)
    ensures 0 < |s|
    ensures AllDigits(s, Decimal)
    ensures ValueOf(s, Decimal) == n
    ensures 1 < |s| ==> s[0] != '0'
    decreases n
  {
    if n < 10 then
      var s := [DigitChar(n)];
      assert s[..0] == [];
      s
    else
      var p := NatToString(n / 10);
      var s := p + [DigitChar(n % 10)];
      assert s[..|s| - 1] == p;
      assert 1 < |p| ==> s[0] == p[0];
      assert |p| == 1 ==> p[..0] == [] && ValueOf(p, Decimal) == DigitValue(p[0], Decimal);
      s
  }

  /** `String(i)` for an integer: a minus sign before the digits of a negative value. */
  function IntToString(i: int): (s: string)
    ensures 0 < |s|
    ensures s[0] == '-' <==> i < 0
  {
    if i < 0 then "-" + NatToString(-i) else NatToString(i)
  }

  // ------------------------------------------------------------- round trip

  lemma {:induction false} DigitRunCons(c: char, s: string, b: Base)
    requires IsDigit(c, b)
    ensures DigitRun([c] + s, b) == 1 + DigitRun(s, b)
  {
    assert ([c] + s)[1..] == s;
  }

  lemma {:induction false} DigitRunOfPrefix(d: string, rest: string, b: Base)
    requires AllDigits(d, b)
    requires rest == [] || !IsDigit(rest[0], b)
    ensures DigitRun(d + rest, b) == |d|
    decreases |d|
  {
    if |d| == 0 {
      assert d + rest == rest;
    } else {
      var tail := d[1..];
      assert AllDigits(tail, b) by {
        forall i | 0 <= i < |tail| ensures IsDigit(tail[i], b) {
          assert tail[i] == d[i + 1];
        }
      }
      DigitRunOfPrefix(tail, rest, b);
      assert d + rest == [d[0]] + (tail + rest);
      DigitRunCons(d[0], tail + rest, b);
    }
  }

  /**
   * A decimal digit string followed by a non-digit reads as its value. Without an
   * explicit radix, a lone "0" must not be followed by `x` or `X` (a hexadecimal prefix).
   */
  lemma {:induction false} ParseUnsignedDigits(d: string, rest: string, radix: RadixArg)
    requires 0 < |d| && AllDigits(d, Decimal)
    requires rest == [] || !IsDecimalDigit(rest[0])
    requires radix == Radix10 || rest == [] || 1 < |d| || d[0] != '0' || (rest[0] != 'x' && rest[0] != 'X')
    ensures ParseUnsigned(d + rest, radix) == Num(ValueOf(d, Decimal))
  {
    var u := d + rest;
    assert 1 < |d| ==> u[1] == d[1];
    DigitRunOfPrefix(d, rest, Decimal);
    assert u[..|d|] == d;
  }

  /** A decimal digit string followed by a non-digit parses to its value. */
  lemma {:induction false} ParseDigits(d: string, rest: string, radix: RadixArg)
    requires 0 < |d| && AllDigits(d, Decimal)
    requires rest == [] || !IsDecimalDigit(rest[0])
    requires radix == Radix10 || rest == [] || 1 < |d| || d[0] != '0' || (rest[0] != 'x' && rest[0] != 'X')
    ensures ParseInt(d + rest, radix) == Num(ValueOf(d, Decimal))
  {
    ParseUnsignedDigits(d, rest, radix);
    assert (d + rest)[0] == d[0];
    LeadingDigit(d + rest, radix);
  }

  /** The same digits after a minus sign parse to the negated value. */
  lemma {:induction false} ParseNegativeDigits(d: string, rest: string, radix: RadixArg)
    requires 0 < |d| && AllDigits(d, Decimal)
    requires rest == [] || !IsDecimalDigit(rest[0])
    requires radix == Radix10 || rest == [] || 1 < |d| || d[0] != '0' || (rest[0] != 'x' && rest[0] != 'X')
    ensures ParseInt("-" + (d + rest), radix) == Num(-(ValueOf(d, Decimal) as int))
  {
    ParseUnsignedDigits(d, rest, radix);
    var s := "-" + (d + rest);
    assert s[1..] == d + rest;
    LeadingSign(s, radix);
  }

  lemma {:induction false} LeadingSign(s: string, radix: RadixArg)
    requires 0 < |s| && s[0] == '-'
    ensures ParseInt(s, radix) == Negate(ParseUnsigned(s[1..], radix))
  {
    assert LeadingWhiteSpace(s) == 0;
  }

  lemma {:induction false} LeadingDigit(s: string, radix: RadixArg)
    requires 0 < |s| && IsDecimalDigit(s[0])
    ensures ParseInt(s, radix) == ParseUnsigned(s, radix)
  {
    assert LeadingWhiteSpace(s) == 0;
  }

  /** `parseInt(String(i) + rest, 10) === i` when `rest` does not continue the digits. */
  lemma {:induction false} IntToStringRoundTrip(i: int, rest: string)
    requires rest == [] || !IsDecimalDigit(rest[0])
    ensures ParseInt(IntToString(i) + rest, Radix10) == Num(i)
  {
    if i < 0 {
      NegativeRoundTrip(i, rest);
    } else {
      ParseDigits(NatToString(i), rest, Radix10);
    }
  }

  lemma {:induction false} NegativeRoundTrip(i: int, rest: string)
    requires i < 0
    requires rest == [] || !IsDecimalDigit(rest[0])
    ensures ParseInt(IntToString(i) + rest, Radix10) == Num(i)
  {
    var d := NatToString(-i);
    var s := IntToString(i) + rest;
    assert s == "-" + (d + rest) by {
      assert IntToString(i) == "-" + d;
    }
    ParseNegativeDigits(d, rest, Radix10);
  }

  // ------------------------------------------------------------------ slice

  /** Resolves a `slice` offset: a negative one counts from the end; the result is clamped to [0, len]. */
  function SliceIndex(k: int, len: nat): (r: nat)
    ensures r <= len
  {
    if k < 0 then (if len + k < 0 then 0 else len + k)
    else if k > len then len
    else k
  }

  /** `s.slice(start, end)` */
  function Slice(s: string, start: int, end: int): string {
    var from := SliceIndex(start, |s|);
    var to := SliceIndex(end, |s|);
    if from < to then s[from..to] else ""
  }
}
