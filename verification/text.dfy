/** String helpers: prefix tests, ASCII lower-casing and fixed-width decimal
    numerals, each with the inverse that pins down what it produces. */
module Text {

  /** `s.startswith(prefix)`. */
  predicate StartsWith(s: string, prefix: string) {
    |prefix| <= |s| && s[..|prefix|] == prefix
  }

  predicate IsUpper(c: char) {
    'A' <= c <= 'Z'
  }

  /** Lower-cases one ASCII letter and leaves every other character alone. */
  function LowerChar(c: char): (r: char)
    ensures !IsUpper(r)
    ensures !IsUpper(c) ==> r == c
    ensures IsUpper(c) ==> 'a' <= r <= 'z' && r as int - c as int == 'a' as int - 'A' as int
  {
    if IsUpper(c) then (c as int - 'A' as int + 'a' as int) as char else c
  }

  /** `s.lower()` restricted to ASCII upper-case letters. */
  function Lower(s: string): (r: string)
    ensures |r| == |s|
    ensures forall i :: 0 <= i < |r| ==> !IsUpper(r[i])
    ensures forall i :: 0 <= i < |s| && !IsUpper(s[i]) ==> r[i] == s[i]
    ensures forall i :: 0 <= i < |s| && IsUpper(s[i]) ==> r[i] as int - s[i] as int == 'a' as int - 'A' as int
  {
    seq(|s|, i requires 0 <= i < |s| => LowerChar(s[i]))
  }

  predicate IsDigit(c: char) {
    '0' <= c <= '9'
  }

  predicate AllDigits(s: string) {
    forall i :: 0 <= i < |s| ==> IsDigit(s[i])
  }

  function DigitChar(d: int): (c: char)
    requires 0 <= d < 10
    ensures IsDigit(c)
  {
    ('0' as int + d) as char
  }

  function DigitValue(c: char): (d: int)
    requires IsDigit(c)
    ensures 0 <= d < 10 && DigitChar(d) == c
  {
    c as int - '0' as int
  }

  /** `%02d` of a number below 100. */
  function Numeral2(n: int): (s: string)
    requires 0 <= n < 100
    ensures |s| == 2 && AllDigits(s)
  {
    [DigitChar(n / 10), DigitChar(n % 10)]
  }

  /** `%04d` of a number below 10000. */
  function Numeral4(n: int): (s: string)
    requires 0 <= n < 10000
    ensures |s| == 4 && AllDigits(s)
  {
    Numeral2(n / 100) + Numeral2(n % 100)
  }

  function Value2(s: string): (n: int)
    requires |s| == 2 && AllDigits(s)
    ensures 0 <= n < 100 && Numeral2(n) == s
  {
    var n := DigitValue(s[0]) * 10 + DigitValue(s[1]);
    assert n / 10 == DigitValue(s[0]) && n % 10 == DigitValue(s[1]);
    n
  }

  function Value4(s: string): (n: int)
    requires |s| == 4 && AllDigits(s)
    ensures 0 <= n < 10000 && Numeral4(n) == s
  {
    var hi, lo := Value2(s[..2]), Value2(s[2..]);
    var n := hi * 100 + lo;
    assert n / 100 == hi && n % 100 == lo;
    assert s == s[..2] + s[2..];
    n
  }

  lemma ValueOfNumeral2(n: int)
    requires 0 <= n < 100
    ensures Value2(Numeral2(n)) == n
  {
  }

  lemma ValueOfNumeral4(n: int)
    requires 0 <= n < 10000
    ensures Value4(Numeral4(n)) == n
  {
  }

  /** The number a string of decimal digits denotes. */
  function DigitsValue(s: string): (v: nat)
    requires AllDigits(s)
  {
    if |s| == 0 then 0 else DigitsValue(s[..|s| - 1]) * 10 + DigitValue(s[|s| - 1])
  }

  /** `str(n)`: the shortest decimal numeral of `n`. */
  function NatToString(n: nat): (s: string)
    ensures |s| >= 1 && AllDigits(s)
    ensures DigitsValue(s) == n
    ensures n > 0 ==> s[0] != '0'
  {
    if n < 10 then [DigitChar(n)]
    else
      var s := NatToString(n / 10) + [DigitChar(n % 10)];
      assert s[..|s| - 1] == NatToString(n / 10);
      s
  }
}
