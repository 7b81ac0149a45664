/** The numeric helpers the cart engine relies on: rounding a price up to the
    cent (`Math.ceil(x * 100) / 100`) and `Number.parseInt(s, 10)`.

    Prices are exact rationals here, not IEEE doubles.
 */
module Numbers {
  import opened Docs

  /** `Math.ceil` */
  function Ceil(x: real): (n: int)
    ensures x <= n as real < x + 1.0
  {
    if x.Floor as real == x then x.Floor else x.Floor + 1
  }

  /** `Math.ceil(x * 100) / 100`: the least whole number of cents not below `x`. */
  function CeilCents(x: real): (r: real)
    ensures x <= r < x + 0.01
    ensures WholeCents(r)
  {
    var c := Ceil(x * 100.0);
    var r := c as real / 100.0;
    assert r * 100.0 == c as real;
    r
  }

  /** The amount is a whole number of cents. */
  predicate WholeCents(x: real) {
    (x * 100.0).Floor as real == x * 100.0
  }

  /** A price already in whole cents stays as it is. */
  lemma CeilCentsOfCents(x: real)
    requires WholeCents(x)
    ensures CeilCents(x) == x
  {
    assert Ceil(x * 100.0) == (x * 100.0).Floor;
  }

  /** Rounding twice is rounding once. */
  lemma CeilCentsIdempotent(x: real)
    ensures CeilCents(CeilCents(x)) == CeilCents(x)
  {
    CeilCentsOfCents(CeilCents(x));
  }

  /** Rounding up to the cent keeps the order of amounts. */
  lemma CeilCentsMonotone(x: real, y: real)
    requires x <= y
    ensures CeilCents(x) <= CeilCents(y)
  {
    var cx, cy := Ceil(x * 100.0), Ceil(y * 100.0);
    assert x * 100.0 <= y * 100.0;
    assert (cx - 1) as real < x * 100.0 && y * 100.0 <= cy as real;
    assert cx <= cy;
  }

  /** The worked example: 3 at 19.995 costs 59.99, not 59.985. */
  lemma PriceExample()
    ensures CeilCents(19.995 * 3.0) == 59.99
  {
    assert 19.995 * 3.0 * 100.0 == 5998.5;
    assert (5998.5).Floor == 5998;
  }

  // ---------------------------------------------------------------------
  // Number.parseInt(s, 10)

  predicate IsDigit(c: char) {
    '0' as int <= c as int <= '9' as int
  }

  /** The white space and line terminators `parseInt` skips at the start. */
  predicate IsSpace(c: char) {
    c == '\t' || c == '\n' || c == '\U{000B}' || c == '\U{000C}' || c == '\r' || c == ' '
    || c == '\U{00A0}' || c == '\U{1680}' || ('\U{2000}' <= c <= '\U{200A}')
    || c == '\U{2028}' || c == '\U{2029}' || c == '\U{202F}' || c == '\U{205F}'
    || c == '\U{3000}' || c == '\U{FEFF}'
  }

  /** Every character is white space. */
  predicate AllSpace(t: string) {
    forall i | 0 <= i < |t| :: IsSpace(t[i])
  }

  /** Leading white space removed: what goes is all white space, and what
      stays is a suffix that does not start with any. */
  function TrimStart(s: string): (r: string)
    ensures |r| <= |s| && r == s[|s| - |r|..]
    ensures AllSpace(s[..|s| - |r|])
    ensures r == [] || !IsSpace(r[0])
  {
    if s != [] && IsSpace(s[0]) then
      var r := TrimStart(s[1..]);
      ghost var k := |s| - |r|;
      assert forall i | 1 <= i < k :: s[..k][i] == s[1..][..k - 1][i - 1];
      r
    else s
  }

  /** The longest prefix made of decimal digits. */
  function DigitPrefix(s: string): (r: string)
    ensures |r| <= |s| && r == s[..|r|]
    ensures forall i | 0 <= i < |r| :: IsDigit(r[i])
    ensures |r| < |s| ==> !IsDigit(s[|r|])
  {
    if s != [] && IsDigit(s[0]) then [s[0]] + DigitPrefix(s[1..]) else []
  }

  function DigitValue(c: char): nat
    requires IsDigit(c)
  {
    c as int - '0' as int
  }

  function DigitsValue(ds: string): nat
    requires forall i | 0 <= i < |ds| :: IsDigit(ds[i])
  {
    if ds == [] then 0
    else DigitsValue(ds[..|ds| - 1]) * 10 + DigitValue(ds[|ds| - 1])
  }

  /** `Number.parseInt(s, 10)`, with None standing for NaN: leading white
      space is skipped, one sign is read, then the longest run of digits;
      no digit at all gives NaN, and whatever follows the digits is ignored. */
  function ParseInt(s: string): Option<int> {
    ParseSigned(TrimStart(s))
  }

  /** What `parseInt` reads once the white space is skipped: one optional
      sign, then the longest run of digits. */
  function ParseSigned(t: string): Option<int> {
    var negative := t != [] && t[0] == '-';
    var body := if t != [] && (t[0] == '-' || t[0] == '+') then t[1..] else t;
    var ds := DigitPrefix(body);
    if ds == [] then None
    else Some(if negative then -(DigitsValue(ds) as int) else DigitsValue(ds))
  }

  function Digit(d: nat): (c: char)
    requires d < 10
    ensures IsDigit(c) && DigitValue(c) == d
  {
    ('0' as int + d) as char
  }

  function NatToString(n: nat): (s: string)
    ensures s != [] && forall i | 0 <= i < |s| :: IsDigit(s[i])
  {
    if n < 10 then [Digit(n)] else NatToString(n / 10) + [Digit(n % 10)]
  }

  /** A number's decimal rendering, as a template prints a quantity. */
  function IntToString(n: int): (s: string)
    ensures s != []
  {
    if n < 0 then "-" + NatToString(-n) else NatToString(n)
  }

  lemma {:induction false} DigitsValueOfNatToString(n: nat)
    ensures DigitsValue(NatToString(n)) == n
  {
    if n >= 10 {
      var s := NatToString(n);
      assert s[..|s| - 1] == NatToString(n / 10);
      DigitsValueOfNatToString(n / 10);
    }
  }

  lemma {:induction false} DigitPrefixOfDigits(s: string, rest: string)
    requires forall i | 0 <= i < |s| :: IsDigit(s[i])
    requires rest == [] || !IsDigit(rest[0])
    ensures DigitPrefix(s + rest) == s
  {
    if s != [] {
      assert (s + rest)[1..] == s[1..] + rest;
      DigitPrefixOfDigits(s[1..], rest);
    }
  }

  /** Text that starts with something other than white space is not trimmed. */
  lemma TrimStartOfNonSpace(s: string)
    requires s != [] && !IsSpace(s[0])
    ensures TrimStart(s) == s
  {
  }

  /** Text starting with a digit is read as its leading run of digits. */
  lemma ParseSignedUnsigned(body: string)
    requires body != [] && IsDigit(body[0])
    ensures ParseSigned(body) == Some(DigitsValue(DigitPrefix(body)))
  {
  }

  /** A minus sign followed by a digit: the run of digits, negated. */
  lemma ParseSignedNegative(body: string)
    requires body != [] && IsDigit(body[0])
    ensures ParseSigned(['-'] + body) == Some(-(DigitsValue(DigitPrefix(body)) as int))
  {
    assert (['-'] + body)[1..] == body;
  }

  lemma ConcatAssoc(a: string, b: string, c: string)
    ensures a + b + c == a + (b + c)
  {
  }

  /** `parseInt` of text that starts with a digit. */
  lemma ParseIntUnsigned(body: string)
    requires body != [] && IsDigit(body[0])
    ensures ParseInt(body) == Some(DigitsValue(DigitPrefix(body)))
  {
    TrimStartOfNonSpace(body);
    ParseSignedUnsigned(body);
  }

  /** `parseInt` of a minus sign followed by a digit. */
  lemma ParseIntNegative(body: string)
    requires body != [] && IsDigit(body[0])
    ensures ParseInt(['-'] + body) == Some(-(DigitsValue(DigitPrefix(body)) as int))
  {
    TrimStartOfNonSpace(['-'] + body);
    ParseSignedNegative(body);
  }

  /** Parsing what was rendered gives the number back, even when other text
      follows it. */
  lemma ParseIntOfIntToString(n: int, rest: string)
    requires rest == [] || !IsDigit(rest[0])
    ensures ParseInt(IntToString(n) + rest) == Some(n)
  {
    var m := if n < 0 then -n else n;
    var digits := NatToString(m);
    var body := digits + rest;
    DigitsValueOfNatToString(m);
    assert DigitPrefix(body) == digits && body[0] == digits[0] by {
      DigitPrefixOfDigits(digits, rest);
    }
    if n < 0 {
      assert IntToString(n) + rest == ['-'] + body by {
        ConcatAssoc("-", digits, rest);
      }
      ParseIntNegative(body);
    } else {
      ParseIntUnsigned(body);
    }
  }
}
