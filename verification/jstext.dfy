/** The JavaScript string built-ins the explorer's core relies on, written out so that the
    core's behaviour can be stated exactly: `String.prototype.trim`, `slice` with negative
    indices, `toLowerCase` on ASCII, `x || default` on strings, `parseInt`, `BigInt(string)`
    and the decimal rendering of an integer in a template literal. */
module JsText {
  import opened Wrappers

  /** ECMAScript WhiteSpace and LineTerminator code points: what `trim` strips and what
      `parseInt` and `BigInt` skip. */
  predicate IsWhitespace(c: char) {
    || c == '\t' || c == '\n' || c == '\U{000B}' || c == '\U{000C}' || c == '\r' || c == ' '
    || c == '\U{00A0}' || c == '\U{1680}' || '\U{2000}' <= c <= '\U{200A}'
    || c == '\U{2028}' || c == '\U{2029}' || c == '\U{202F}' || c == '\U{205F}'
    || c == '\U{3000}' || c == '\U{FEFF}'
  }

  predicate AllWhitespace(s: string) {
    forall i :: 0 <= i < |s| ==> IsWhitespace(s[i])
  }

  /** Drops leading whitespace. */
  function TrimStart(s: string): (r: string)
    ensures |r| <= |s| && r == s[|s| - |r|..]
    ensures forall i :: 0 <= i < |s| - |r| ==> IsWhitespace(s[i])
    ensures r != [] ==> !IsWhitespace(r[0])
  {
    if s != [] && IsWhitespace(s[0]) then TrimStart(s[1..]) else s
  }

  /** Drops trailing whitespace. */
  function TrimEnd(s: string): (r: string)
    ensures |r| <= |s| && r == s[..|r|]
    ensures forall i :: |r| <= i < |s| ==> IsWhitespace(s[i])
    ensures r != [] ==> !IsWhitespace(r[|r| - 1])
  {
    if s != [] && IsWhitespace(s[|s| - 1]) then TrimEnd(s[..|s| - 1]) else s
  }

  /** `String.prototype.trim`. */
  function Trim(s: string): (r: string)
    ensures r != [] ==> !IsWhitespace(r[0]) && !IsWhitespace(r[|r| - 1])
  {
    TrimEnd(TrimStart(s))
  }

  /** A string trims to the empty string exactly when every character of it is whitespace. */
  lemma TrimEmptyIffAllWhitespace(s: string)
    ensures Trim(s) == [] <==> AllWhitespace(s)
  {
    var t := TrimStart(s);
    if Trim(s) == [] {
      assert t == [];
    } else {
      var r := Trim(s);
      assert r == t[..|r|];
      assert r[0] == s[|s| - |t|];
    }
  }

  /** The index a JavaScript `slice` argument denotes in a sequence of length `n`: negative
      values count from the end, and the result is clamped into `0..n`. */
  function RelativeIndex(x: int, n: nat): (k: nat)
    ensures k <= n
    ensures 0 <= x ==> k == Min(x, n)
    ensures x < 0 ==> k == Max(n + x, 0)
  {
    if x < 0 then (if n + x < 0 then 0 else n + x) else if x < n then x else n
  }

  /** `Array.prototype.slice` / `String.prototype.slice(start, end)`. */
  function Slice<T>(s: seq<T>, start: int, end: int): (r: seq<T>)
    ensures |r| <= |s|
    ensures 0 <= start <= end ==> r == s[Min(start, |s|)..Min(end, |s|)]
    ensures 0 <= end <= start ==> r == []
    ensures start < 0 && end >= |s| ==> r == s[|s| - Min(-start, |s|)..]
  {
    var from := RelativeIndex(start, |s|);
    var to := RelativeIndex(end, |s|);
    if from < to then s[from..to] else []
  }

  /** `x || fallback` on a string that may be missing: both a missing string and the
      (falsy) empty string give way to the fallback. */
  function OrElse(x: Option<string>, fallback: string): (r: string)
    ensures r == fallback || (x.Some? && r == x.value && r != [])
    ensures x.Some? && x.value != [] ==> r == x.value
  {
    match x
    case Some(v) => if v != [] then v else fallback
    case None => fallback
  }

  predicate IsUpperAscii(c: char) {
    'A' <= c <= 'Z'
  }

  /** `toLowerCase` on one character, for the ASCII range. */
  function LowerChar(c: char): (d: char)
    ensures !IsUpperAscii(d)
    ensures IsUpperAscii(c) ==> d as int == c as int + 32
    ensures !IsUpperAscii(c) ==> d == c
  {
    if IsUpperAscii(c) then (c as int + 32) as char else c
  }

  /** `String.prototype.toLowerCase`, character by character on ASCII. */
  function ToLower(s: string): (r: string)
    ensures |r| == |s|
    ensures forall i :: 0 <= i < |s| ==> r[i] == LowerChar(s[i])
  {
    if s == [] then [] else [LowerChar(s[0])] + ToLower(s[1..])
  }

  /** Lowercasing twice is lowercasing once. */
  lemma ToLowerIdempotent(s: string)
    ensures ToLower(ToLower(s)) == ToLower(s)
  {
    var once := ToLower(s);
    var twice := ToLower(once);
    assert forall i :: 0 <= i < |s| ==> twice[i] == LowerChar(once[i]) == once[i];
  }

  // ---------------------------------------------------------------------------------
  // Digits in a radix, as JavaScript's number parsers read them

  predicate IsAsciiDigit(c: char) {
    '0' <= c <= '9'
  }

  predicate IsAsciiLetter(c: char) {
    'a' <= c <= 'z' || IsUpperAscii(c)
  }

  /** The value of a digit character in radices up to 36. */
  function DigitValue(c: char): (v: nat)
    requires IsAsciiDigit(c) || IsAsciiLetter(c)
    ensures v < 36
  {
    if IsAsciiDigit(c) then c as int - '0' as int
    else if 'a' <= c <= 'z' then c as int - 'a' as int + 10
    else c as int - 'A' as int + 10
  }

  predicate IsRadixDigit(c: char, radix: nat) {
    (IsAsciiDigit(c) || IsAsciiLetter(c)) && DigitValue(c) < radix
  }

  predicate AllRadixDigits(s: string, radix: nat) {
    forall i :: 0 <= i < |s| ==> IsRadixDigit(s[i], radix)
  }

  /** The value of a digit string, most significant digit first. */
  function ValueIn(s: string, radix: nat): nat
    requires AllRadixDigits(s, radix)
  {
    if s == [] then 0 else ValueIn(s[..|s| - 1], radix) * radix + DigitValue(s[|s| - 1])
  }

  /** The longest prefix of `s` made of digits of the radix. */
  function DigitRun(s: string, radix: nat): (r: string)
    ensures |r| <= |s| && r == s[..|r|]
    ensures AllRadixDigits(r, radix)
    ensures |r| < |s| ==> !IsRadixDigit(s[|r|], radix)
  {
    if s != [] && IsRadixDigit(s[0], radix) then [s[0]] + DigitRun(s[1..], radix) else []
  }

  function DigitChar(d: nat): (c: char)
    requires d < 10
    ensures IsAsciiDigit(c) && DigitValue(c) == d
  {
    (d + '0' as int) as char
  }

  /** The decimal text of a natural number, as a template literal prints it. */
  function NatToDecimal(n: nat): (r: string)
    ensures r != [] && AllRadixDigits(r, 10)
    ensures |r| > 1 ==> r[0] != '0'
  {
    if n < 10 then [DigitChar(n)] else NatToDecimal(n / 10) + [DigitChar(n % 10)]
  }

  /** The decimal text of an integer: a minus sign before negative values. */
  function IntToDecimal(i: int): (r: string)
    ensures r != [] && (r[0] == '-' <==> i < 0)
    ensures forall k :: 0 <= k < |r| ==> r[k] == '-' || IsAsciiDigit(r[k])
  {
    if i < 0 then "-" + NatToDecimal(-i) else NatToDecimal(i)
  }

  /** Reading back the decimal text of `n` gives `n`. */
  lemma {:induction false} NatToDecimalRoundTrip(n: nat)
    ensures ValueIn(NatToDecimal(n), 10) == n
  {
    if n >= 10 {
      var s := NatToDecimal(n);
      assert s[..|s| - 1] == NatToDecimal(n / 10);
      NatToDecimalRoundTrip(n / 10);
    }
  }

  /** Distinct numbers print as distinct texts. */
  lemma NatToDecimalInjective(a: nat, b: nat)
    requires NatToDecimal(a) == NatToDecimal(b)
    ensures a == b
  {
    NatToDecimalRoundTrip(a);
    NatToDecimalRoundTrip(b);
  }

  /** Distinct integers print as distinct texts. */
  lemma IntToDecimalInjective(a: int, b: int)
    requires IntToDecimal(a) == IntToDecimal(b)
    ensures a == b
  {
    if a < 0 {
      assert NatToDecimal(-a) == IntToDecimal(a)[1..] == IntToDecimal(b)[1..] == NatToDecimal(-b);
      NatToDecimalInjective(-a, -b);
    } else {
      NatToDecimalInjective(a, b);
    }
  }

  // ---------------------------------------------------------------------------------
  // parseInt and BigInt

  /** `parseInt(s)` with no radix argument: skip leading whitespace, take an optional sign,
      read hexadecimal after a `0x`/`0X` prefix and decimal otherwise, stop at the first
      character that is not a digit. `None` is `NaN`, returned when no digit was read. */
  function ParseInt(s: string): (r: Option<int>)
    ensures AllWhitespace(s) ==> r.None?
  {
    var (radix, text, sign) := ParseIntBody(s);
    var digits := DigitRun(text, radix);
    if digits == [] then None else Some(sign * ValueIn(digits, radix))
  }

  /** The radix, the text from which digits are read, and the sign that `parseInt` settles
      on before reading digits. */
  function ParseIntBody(s: string): (r: (nat, string, int))
    ensures r.0 == 10 || r.0 == 16
    ensures r.2 == 1 || r.2 == -1
  {
    var t := TrimStart(s);
    var sign := if t != [] && t[0] == '-' then -1 else 1;
    var u := if t != [] && (t[0] == '-' || t[0] == '+') then t[1..] else t;
    if |u| >= 2 && u[0] == '0' && (u[1] == 'x' || u[1] == 'X') then (16, u[2..], sign)
    else (10, u, sign)
  }

  /** `parseInt` reads back the decimal text of every natural number. */
  lemma ParseIntOfDecimal(n: nat)
    ensures ParseInt(NatToDecimal(n)) == Some(n)
  {
    var s := NatToDecimal(n);
    assert TrimStart(s) == s by {
      assert IsAsciiDigit(s[0]);
    }
    assert ParseIntBody(s) == (10, s, 1) by {
      if |s| >= 2 {
        assert IsRadixDigit(s[1], 10);
      }
    }
    DigitRunOfDigits(s, 10);
    NatToDecimalRoundTrip(n);
  }

  /** A string made only of digits is its own digit run. */
  lemma {:induction false} DigitRunOfDigits(s: string, radix: nat)
    requires AllRadixDigits(s, radix)
    ensures DigitRun(s, radix) == s
  {
    if s != [] {
      DigitRunOfDigits(s[1..], radix);
    }
  }

  /** The radix a `0b`, `0o` or `0x` prefix (either case) selects in a BigInt literal. */
  function PrefixRadix(c: char): (r: nat)
    ensures r in {0, 2, 8, 16}
  {
    if c == 'x' || c == 'X' then 16
    else if c == 'o' || c == 'O' then 8
    else if c == 'b' || c == 'B' then 2
    else 0
  }

  /** `BigInt(s)` for a string: surrounding whitespace is ignored, the empty text is zero,
      a signed decimal literal or an unsigned `0x`/`0o`/`0b` literal is read, and anything
      else throws a `SyntaxError` (`None`). */
  function ToBigInt(s: string): (r: Option<int>)
    ensures AllWhitespace(s) ==> r == Some(0)
  {
    var t := Trim(s);
    TrimEmptyIffAllWhitespace(s);
    if t == [] then Some(0)
    else if |t| >= 2 && t[0] == '0' && PrefixRadix(t[1]) != 0 then
      var body := t[2..];
      if body != [] && AllRadixDigits(body, PrefixRadix(t[1])) then Some(ValueIn(body, PrefixRadix(t[1]))) else None
    else
      var sign := if t[0] == '-' then -1 else 1;
      var body := if t[0] == '-' || t[0] == '+' then t[1..] else t;
      if body != [] && AllRadixDigits(body, 10) then Some(sign * ValueIn(body, 10)) else None
  }

  /** `BigInt` reads back the decimal text of every natural number. */
  lemma ToBigIntOfDecimal(n: nat)
    ensures ToBigInt(NatToDecimal(n)) == Some(n)
  {
    var s := NatToDecimal(n);
    DigitsAreTrimmed(s);
    assert IsRadixDigit(s[0], 10);
    NatToDecimalRoundTrip(n);
  }

  /** A non-empty digit string has no whitespace to trim. */
  lemma DigitsAreTrimmed(s: string)
    requires s != [] && AllRadixDigits(s, 10)
    ensures Trim(s) == s
  {
    assert IsRadixDigit(s[0], 10);
    assert TrimStart(s) == s;
    assert IsRadixDigit(s[|s| - 1], 10);
  }
}
