/** Character and string helpers the handlers rely on: decimal rendering of
    numbers (`Number.prototype.toString`), `parseInt`, prefix tests and the
    case-insensitive substring match that stands in for a `$regex` with the `i` option. */
module Text {
  import opened Wrappers

  predicate IsDigit(c: char) {
    '0' <= c <= '9'
  }

  predicate AllDigits(s: string) {
    forall i :: 0 <= i < |s| ==> IsDigit(s[i])
  }

  function DigitValue(c: char): (d: nat)
    requires IsDigit(c)
    ensures d < 10
  {
    c as int - '0' as int
  }

  function DigitChar(d: nat): (c: char)
    requires d < 10
    ensures IsDigit(c) && DigitValue(c) == d
  {
    ('0' as int + d) as char
  }

  /** The number a string of decimal digits denotes (most significant digit first). */
  function DigitsValue(s: string): nat
    requires AllDigits(s)
  {
    if |s| == 0 then 0 else DigitsValue(s[..|s| - 1]) * 10 + DigitValue(s[|s| - 1])
  }

  /** `n.toString()` for a non-negative integer: the shortest decimal numeral of `n`. */
  function Decimal(n: nat): (s: string)
    ensures |s| > 0 && AllDigits(s)
    ensures |s| > 1 ==> s[0] != '0'
  {
    if n < 10 then [DigitChar(n)] else Decimal(n / 10) + [DigitChar(n % 10)]
  }

  /** Reading back a rendered number gives the number. */
  lemma {:induction false} DigitsValueOfDecimal(n: nat)
    ensures DigitsValue(Decimal(n)) == n
  {
    if n >= 10 {
      var s := Decimal(n);
      assert s[..|s| - 1] == Decimal(n / 10);
      DigitsValueOfDecimal(n / 10);
    }
  }

  /** Distinct numbers render as distinct strings. */
  lemma DecimalInjective(a: nat, b: nat)
    ensures Decimal(a) == Decimal(b) <==> a == b
  {
    if Decimal(a) == Decimal(b) {
      DigitsValueOfDecimal(a);
      DigitsValueOfDecimal(b);
    }
  }

  /** Characters `parseInt` skips before the number (the common white-space characters). */
  predicate IsSpace(c: char) {
    c == ' ' || c == '\t' || c == '\n' || c == '\r' || c == '\U{000B}' || c == '\U{000C}'
  }

  function TrimStart(s: string): (r: string)
    ensures |r| <= |s| && r == s[|s| - |r|..]
    ensures |r| > 0 ==> !IsSpace(r[0])
    ensures forall i :: 0 <= i < |s| - |r| ==> IsSpace(s[i])
  {
    if |s| > 0 && IsSpace(s[0]) then TrimStart(s[1..]) else s
  }

  /** Length of the longest prefix of `s` made of decimal digits. */
  function DigitRun(s: string): (k: nat)
    ensures k <= |s| && AllDigits(s[..k])
    ensures k < |s| ==> !IsDigit(s[k])
  {
    if |s| > 0 && IsDigit(s[0]) then
      var k := 1 + DigitRun(s[1..]);
      assert s[..k] == [s[0]] + s[1..][..k - 1];
      k
    else 0
  }

  predicate IsHexDigit(c: char) {
    IsDigit(c) || 'a' <= c <= 'f' || 'A' <= c <= 'F'
  }

  predicate AllHexDigits(s: string) {
    forall i :: 0 <= i < |s| ==> IsHexDigit(s[i])
  }

  function HexDigitValue(c: char): (d: nat)
    requires IsHexDigit(c)
    ensures d < 16
    ensures IsDigit(c) ==> d == DigitValue(c)
  {
    if IsDigit(c) then DigitValue(c)
    else if 'a' <= c <= 'f' then c as int - 'a' as int + 10
    else c as int - 'A' as int + 10
  }

  /** The number a string of hexadecimal digits denotes (most significant digit first). */
  function HexValue(s: string): nat
    requires AllHexDigits(s)
  {
    if |s| == 0 then 0 else HexValue(s[..|s| - 1]) * 16 + HexDigitValue(s[|s| - 1])
  }

  /** Length of the longest prefix of `s` made of hexadecimal digits. */
  function HexRun(s: string): (k: nat)
    ensures k <= |s| && AllHexDigits(s[..k])
    ensures k < |s| ==> !IsHexDigit(s[k])
  {
    if |s| > 0 && IsHexDigit(s[0]) then
      var k := 1 + HexRun(s[1..]);
      assert s[..k] == [s[0]] + s[1..][..k - 1];
      k
    else 0
  }

  /** `s` opens with the `0x` or `0X` that makes a radix-less `parseInt` read base 16. */
  predicate HexPrefixed(s: string) {
    |s| >= 2 && s[0] == '0' && (s[1] == 'x' || s[1] == 'X')
  }

  /** `parseInt(s)` without a radix: leading white space, an optional sign, then
      the number `ReadMagnitude` reads; `None` is NaN. */
  function ParseInt(s: string): (r: Option<int>)
    ensures |s| > 0 && AllDigits(s) && !HexPrefixed(s) ==> r == Some(DigitsValue(s))
    ensures HexPrefixed(s) && AllHexDigits(s[2..]) ==> r == if |s| == 2 then None else Some(HexValue(s[2..]))
    ensures TrimStart(s) == [] ==> r == None
  {
    StartsUnsigned(s);
    var t := TrimStart(s);
    var negative := |t| > 0 && t[0] == '-';
    var u := if |t| > 0 && (t[0] == '-' || t[0] == '+') then t[1..] else t;
    match ReadMagnitude(u)
    case None => None
    case Some(v) => Some(if negative then -(v as int) else v)
  }

  /** Text that opens with a digit has no white space or sign to skip. */
  lemma StartsUnsigned(s: string)
    ensures |s| > 0 && IsDigit(s[0]) ==> TrimStart(s) == s
    ensures |s| > 0 && AllDigits(s) ==> IsDigit(s[0])
    ensures HexPrefixed(s) ==> IsDigit(s[0])
  {
    if |s| > 0 && IsDigit(s[0]) {
      assert !IsSpace(s[0]);
    }
  }

  /** The unsigned part of `parseInt`: `0x`/`0X` and the longest run of
      hexadecimal digits, or else the longest run of decimal digits; `None`
      when no digit stands where the number should start. */
  function ReadMagnitude(u: string): (r: Option<nat>)
    ensures |u| > 0 && AllDigits(u) && !HexPrefixed(u) ==> r == Some(DigitsValue(u))
    ensures HexPrefixed(u) && AllHexDigits(u[2..]) ==> r == if |u| == 2 then None else Some(HexValue(u[2..]))
  {
    DigitsReadWhole(u);
    HexReadWhole(u);
    if HexPrefixed(u) then
      var w := u[2..];
      var k := HexRun(w);
      if k == 0 then None else Some(HexValue(w[..k]))
    else
      var k := DigitRun(u);
      if k == 0 then None else Some(DigitsValue(u[..k]))
  }

  /** A numeral of digits alone has nothing to trim, no sign, and is one run of digits. */
  lemma {:induction false} DigitsReadWhole(s: string)
    ensures |s| > 0 && AllDigits(s) ==> TrimStart(s) == s && DigitRun(s) == |s| && s[..|s|] == s
  {
    if |s| > 0 && AllDigits(s) {
      assert IsDigit(s[0]) && !IsSpace(s[0]);
    }
  }

  /** A `0x` numeral has nothing to trim, no sign, and its digits are one run. */
  lemma HexReadWhole(s: string)
    ensures HexPrefixed(s) && AllHexDigits(s[2..]) ==> HexRun(s[2..]) == |s| - 2 && s[2..][..|s| - 2] == s[2..]
  {
    if HexPrefixed(s) && AllHexDigits(s[2..]) {
      HexRunWhole(s[2..]);
    }
  }

  lemma {:induction false} HexRunWhole(s: string)
    requires AllHexDigits(s)
    ensures HexRun(s) == |s|
  {
    if |s| > 0 {
      HexRunWhole(s[1..]);
    }
  }

  /** Radix-less `parseInt` reads `0x10` as sixteen and a bare `0x` as NaN. */
  lemma ParseIntHexExamples()
    ensures ParseInt("0x10") == Some(16)
    ensures ParseInt("0X1f") == Some(31)
    ensures ParseInt("0x") == None
  {
    assert HexPrefixed("0x10") && "0x10"[2..] == "10" && AllHexDigits("10");
    assert HexValue("10") == 16 by {
      assert "10"[..1] == "1" && "1"[..0] == "";
      assert HexDigitValue('1') == 1 && HexDigitValue('0') == 0;
    }
    assert HexPrefixed("0X1f") && "0X1f"[2..] == "1f" && AllHexDigits("1f");
    assert HexValue("1f") == 31 by {
      assert "1f"[..1] == "1" && "1"[..0] == "";
      assert HexDigitValue('1') == 1 && HexDigitValue('f') == 15;
    }
    assert HexPrefixed("0x") && AllHexDigits("0x"[2..]);
  }

  /** `parseInt(n.toString()) == n` for every non-negative integer. */
  lemma ParseIntOfDecimal(n: nat)
    ensures ParseInt(Decimal(n)) == Some(n)
  {
    var s := Decimal(n);
    assert s[..|s|] == s;
    DigitsValueOfDecimal(n);
  }

  predicate StartsWith(s: string, prefix: string) {
    |prefix| <= |s| && s[..|prefix|] == prefix
  }

  /** ASCII lower-casing of one character. */
  function Lower(c: char): (r: char)
    ensures 'A' <= c <= 'Z' ==> r as int == c as int + 32
    ensures !('A' <= c <= 'Z') ==> r == c
  {
    if 'A' <= c <= 'Z' then (c as int + 32) as char else c
  }

  function LowerString(s: string): (r: string)
    ensures |r| == |s|
    ensures forall i :: 0 <= i < |s| ==> r[i] == Lower(s[i])
  {
    if |s| == 0 then [] else [Lower(s[0])] + LowerString(s[1..])
  }

  /** `pattern` occurs in `text` as a contiguous block. */
  predicate Contains(text: string, pattern: string) {
    exists i :: 0 <= i <= |text| - |pattern| && OccursAt(text, pattern, i)
  }

  predicate OccursAt(text: string, pattern: string, i: int)
    requires 0 <= i <= |text| - |pattern|
  {
    text[i..i + |pattern|] == pattern
  }

  /** Case-insensitive occurrence, the effect of `{ $regex: pattern, $options: 'i' }`
      for a pattern without regular-expression metacharacters. */
  predicate ContainsIgnoringCase(text: string, pattern: string)
    ensures |pattern| == 0 ==> ContainsIgnoringCase(text, pattern)
    ensures ContainsIgnoringCase(text, pattern) ==> |pattern| <= |text|
  {
    assert |pattern| == 0 ==> OccursAt(LowerString(text), LowerString(pattern), 0);
    Contains(LowerString(text), LowerString(pattern))
  }

  /** Lower-casing twice is lower-casing once. */
  lemma LowerStringIdempotent(s: string)
    ensures LowerString(LowerString(s)) == LowerString(s)
  {
  }

  /** Matching ignores the case of the pattern: a pattern and its lower-cased form
      select the same texts. */
  lemma ContainsIgnoringCaseOfLowered(text: string, pattern: string)
    ensures ContainsIgnoringCase(text, LowerString(pattern)) == ContainsIgnoringCase(text, pattern)
  {
    LowerStringIdempotent(pattern);
  }

  /** A case-insensitive match is a window of the text that equals the pattern
      character by character up to case. */
  lemma ContainsIgnoringCaseByWindow(text: string, pattern: string)
    ensures ContainsIgnoringCase(text, pattern) <==>
      exists i :: 0 <= i <= |text| - |pattern| && WindowMatches(text, pattern, i)
  {
    forall i | 0 <= i <= |text| - |pattern|
      ensures WindowMatches(text, pattern, i) <==> OccursAt(LowerString(text), LowerString(pattern), i)
    {
      LowerSlice(text, i, i + |pattern|);
    }
  }

  /** The window of `text` at `i` is `pattern` up to case. */
  predicate WindowMatches(text: string, pattern: string, i: int)
    requires 0 <= i <= |text| - |pattern|
  {
    LowerString(text[i..i + |pattern|]) == LowerString(pattern)
  }

  /** Lower-casing commutes with taking a slice. */
  lemma LowerSlice(s: string, i: nat, j: nat)
    requires i <= j <= |s|
    ensures LowerString(s)[i..j] == LowerString(s[i..j])
  {
  }

  /** An occurrence found by position witnesses `ContainsIgnoringCase`. */
  lemma ContainsIgnoringCaseAt(text: string, pattern: string, i: nat)
    requires i + |pattern| <= |text|
    requires LowerString(text)[i..i + |pattern|] == LowerString(pattern)
    ensures ContainsIgnoringCase(text, pattern)
  {
    assert OccursAt(LowerString(text), LowerString(pattern), i);
  }
}
