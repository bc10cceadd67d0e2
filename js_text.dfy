/** The few JavaScript built-ins on strings and numbers that the client's
    logic depends on: `Number.prototype.toString`, `parseInt(s, 10)`,
    `String.prototype.toLowerCase` and the string quoting of `JSON.stringify`. */
module JsText {
  import opened Results

  predicate IsDigit(c: char) {
    '0' <= c <= '9'
  }

  predicate AllDigits(s: string) {
    forall i :: 0 <= i < |s| ==> IsDigit(s[i])
  }

  function DigitValue(c: char): (d: nat)
    requires IsDigit(c)
    ensures d < 10
  {
    c as int - '0' as int
  }

  function DigitChar(d: nat): (c: char)
    requires d < 10
    ensures IsDigit(c) && DigitValue(c) == d
  {
    ('0' as int + d) as char
  }

  /** The decimal form of a non-negative integer: most significant digit
      first and no leading zero. */
  function NatToDecimal(n: nat): (s: string)
    ensures |s| > 0 && AllDigits(s)
    ensures |s| > 1 ==> s[0] != '0'
    ensures n > 0 ==> s[0] != '0'
  {
    if n < 10 then [DigitChar(n)] else NatToDecimal(n / 10) + [DigitChar(n % 10)]
  }

  /** `n.toString()` for an integral number `n`. */
  function IntToDecimal(n: int): (s: string)
    ensures |s| > 0
    ensures s[0] == '-' <==> n < 0
    ensures n >= 0 ==> AllDigits(s)
  {
    if n < 0 then "-" + NatToDecimal(-n) else NatToDecimal(n)
  }

  /** The number a string of decimal digits denotes. */
  function DigitsValue(s: string): nat
    requires AllDigits(s)
  {
    if |s| == 0 then 0 else 10 * DigitsValue(s[..|s| - 1]) + DigitValue(s[|s| - 1])
  }

  lemma {:induction false} DigitsValueOfDecimal(n: nat)
    ensures DigitsValue(NatToDecimal(n)) == n
  {
    if n >= 10 {
      var s := NatToDecimal(n);
      assert s[..|s| - 1] == NatToDecimal(n / 10);
      DigitsValueOfDecimal(n / 10);
    }
  }

  /** The characters ECMAScript's StrWhiteSpaceChar admits: WhiteSpace
      (tab, vertical tab, form feed, space, no-break space, the byte order
      mark and the Zs category) and LineTerminator. */
  predicate IsJsWhitespace(c: char) {
    var n := c as int;
    n == 0x09 || n == 0x0A || n == 0x0B || n == 0x0C || n == 0x0D || n == 0x20
    || n == 0xA0 || n == 0x1680 || (0x2000 <= n <= 0x200A) || n == 0x2028
    || n == 0x2029 || n == 0x202F || n == 0x205F || n == 0x3000 || n == 0xFEFF
  }

  /** How many characters of white space `s` starts with: they are all
      white space, and the character after them, if any, is not. */
  function LeadingWhitespace(s: string): (n: nat)
    ensures n <= |s|
    ensures forall i :: 0 <= i < n ==> IsJsWhitespace(s[i])
    ensures n < |s| ==> !IsJsWhitespace(s[n])
  {
    if |s| > 0 && IsJsWhitespace(s[0]) then
      assert forall i :: 0 < i <= |s[1..]| ==> s[1..][i - 1] == s[i];
      1 + LeadingWhitespace(s[1..])
    else 0
  }

  /** The longest prefix of `s` made of decimal digits. */
  function DigitPrefix(s: string): (p: string)
    ensures p <= s && AllDigits(p)
    ensures |p| < |s| ==> !IsDigit(s[|p|])
    ensures AllDigits(s) ==> p == s
  {
    if |s| > 0 && IsDigit(s[0]) then [s[0]] + DigitPrefix(s[1..]) else []
  }

  /** `parseInt(s, 10)` after the white space: an optional sign and the
      longest run of digits after it; `None` when no digit follows the sign. */
  function ParseSigned(t: string): (r: Option<int>)
    ensures |t| > 0 && AllDigits(t) ==> r == Some(DigitsValue(t))
    ensures |t| > 1 && t[0] == '-' && AllDigits(t[1..]) ==> r == Some(-(DigitsValue(t[1..]) as int))
    ensures |t| == 0 ==> r.None?
  {
    var negative := |t| > 0 && t[0] == '-';
    var unsigned := if |t| > 0 && (t[0] == '-' || t[0] == '+') then t[1..] else t;
    var digits := DigitPrefix(unsigned);
    if digits == [] then None
    else
      var magnitude: int := DigitsValue(digits);
      Some(if negative then -magnitude else magnitude)
  }

  /** `parseInt(s, 10)`: optional leading white space, an optional sign and
      the longest run of digits after it; `None` stands for `NaN`, the
      result when no digit follows the sign. */
  function ParseInt(s: string): (r: Option<int>)
    ensures |s| > 0 && AllDigits(s) ==> r == Some(DigitsValue(s))
    ensures |s| == 0 ==> r.None?
  {
    ParseSigned(s[LeadingWhitespace(s)..])
  }

  /** A minus sign followed by digits parses to the negated digit value. */
  lemma ParseIntOfNegative(s: string)
    requires |s| > 1 && s[0] == '-' && AllDigits(s[1..])
    ensures ParseInt(s) == Some(-(DigitsValue(s[1..]) as int))
  {
    assert LeadingWhitespace(s) == 0 by {
      assert !IsJsWhitespace(s[0]);
    }
    assert s[0..] == s;
  }

  /** The decimal form of a negative integer is a minus sign followed by the
      digits of its magnitude. */
  lemma NegativeDecimal(n: int)
    requires n < 0
    ensures |IntToDecimal(n)| > 1 && IntToDecimal(n)[0] == '-'
    ensures IntToDecimal(n)[1..] == NatToDecimal(-n)
  {
    var digits := NatToDecimal(-n);
    assert IntToDecimal(n) == "-" + digits;
    assert ("-" + digits)[1..] == digits;
  }

  /** Reading back what `toString` wrote gives the number again: the
      decimal form of every integer parses to that integer. */
  lemma ParseIntOfDecimal(n: int)
    ensures ParseInt(IntToDecimal(n)) == Some(n)
  {
    if n < 0 {
      NegativeDecimal(n);
      ParseIntOfNegative(IntToDecimal(n));
      DigitsValueOfDecimal(-n);
    } else {
      var digits := NatToDecimal(n);
      assert IntToDecimal(n) == digits;
      DigitsValueOfDecimal(n);
    }
  }

  /** One character of `toLowerCase` on ASCII: 'A'..'Z' become the letter
      with the same place in 'a'..'z', and nothing else changes. */
  function LowerAscii(c: char): (l: char)
    ensures !('A' <= l <= 'Z')
    ensures 'A' <= c <= 'Z' ==> 'a' <= l <= 'z' && l as int - 'a' as int == c as int - 'A' as int
    ensures !('A' <= c <= 'Z') ==> l == c
  {
    if 'A' <= c <= 'Z' then (c as int + 32) as char else c
  }

  /** `s.toLowerCase()`, on the ASCII letters. */
  function ToLowerCase(s: string): (r: string)
    ensures |r| == |s|
    ensures forall i :: 0 <= i < |s| ==> r[i] == LowerAscii(s[i])
    ensures forall i :: 0 <= i < |s| ==> !('A' <= r[i] <= 'Z')
  {
    seq(|s|, i requires 0 <= i < |s| => LowerAscii(s[i]))
  }

  function HexDigit(d: nat): char
    requires d < 16
  {
    if d < 10 then DigitChar(d) else ('a' as int + d - 10) as char
  }

  /** Characters `JSON.stringify` writes as themselves inside a string. */
  predicate IsPlainJsonChar(c: char) {
    c != '"' && c != '\\' && c as int >= 0x20
  }

  /** How `JSON.stringify` writes one character of a string. */
  function JsonEscapeChar(c: char): (e: string)
    ensures |e| > 0
    ensures IsPlainJsonChar(c) <==> e == [c]
    ensures !IsPlainJsonChar(c) ==> |e| >= 2 && e[0] == '\\'
  {
    var n := c as int;
    if c == '"' then ['\\', '"']
    else if c == '\\' then ['\\', '\\']
    else if n == 0x08 then ['\\', 'b']
    else if n == 0x0C then ['\\', 'f']
    else if n == 0x0A then ['\\', 'n']
    else if n == 0x0D then ['\\', 'r']
    else if n == 0x09 then ['\\', 't']
    else if n < 0x20 then ['\\', 'u', '0', '0', HexDigit(n / 16), HexDigit(n % 16)]
    else [c]
  }

  /** The body of `JSON.stringify`'s string literal: each character written
      as `JsonEscapeChar` writes it. The text grows exactly when some
      character needs an escape. */
  function JsonEscape(s: string): (e: string)
    ensures |e| >= |s|
    ensures |e| == |s| <==> forall i :: 0 <= i < |s| ==> IsPlainJsonChar(s[i])
  {
    if s == [] then []
    else
      assert forall i :: 0 < i < |s| ==> s[1..][i - 1] == s[i];
      JsonEscapeChar(s[0]) + JsonEscape(s[1..])
  }

  /** Escaping works character by character, so it distributes over
      concatenation. */
  lemma {:induction false} JsonEscapeConcat(a: string, b: string)
    ensures JsonEscape(a + b) == JsonEscape(a) + JsonEscape(b)
  {
    if a != [] {
      assert (a + b)[0] == a[0] && (a + b)[1..] == a[1..] + b;
      JsonEscapeConcat(a[1..], b);
    } else {
      assert a + b == b;
    }
  }

  /** `JSON.stringify` of a string: the escaped text between double quotes. */
  function JsonQuote(s: string): (q: string)
    ensures |q| >= |s| + 2 && q[0] == '"' && q[|q| - 1] == '"'
  {
    "\"" + JsonEscape(s) + "\""
  }

  /** Text without quotes, backslashes or control characters is quoted as it is. */
  lemma {:induction false} PlainTextQuotedVerbatim(s: string)
    requires forall i :: 0 <= i < |s| ==> IsPlainJsonChar(s[i])
    ensures JsonEscape(s) == s
    ensures JsonQuote(s) == "\"" + s + "\""
  {
    if s != [] {
      assert IsPlainJsonChar(s[0]);
      PlainTextQuotedVerbatim(s[1..]);
      assert s == [s[0]] + s[1..];
    }
  }
}
