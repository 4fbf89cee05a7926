/**
 The few pieces of Java's integer semantics the step counter relies on:
 the ranges of `int` and `long`, narrowing casts (two's-complement wrap-around),
 integer division that truncates toward zero, and the decimal text that string
 concatenation produces for an `int`.
 */
module JavaLang {

  const INT_MIN: int := -0x8000_0000
  const INT_MAX: int := 0x7fff_ffff
  const LONG_MIN: int := -0x8000_0000_0000_0000
  const LONG_MAX: int := 0x7fff_ffff_ffff_ffff

  type Int = x: int | INT_MIN <= x <= INT_MAX
  type Long = x: int | LONG_MIN <= x <= LONG_MAX

  /** The `(int)` cast of a value: keeps the low 32 bits, read as two's complement. */
  function ToInt(x: int): (r: Int)
    ensures INT_MIN <= x <= INT_MAX ==> r == x
    ensures (x - r) % 0x1_0000_0000 == 0
  {
    var m := x % 0x1_0000_0000;
    if m <= INT_MAX then m else m - 0x1_0000_0000
  }

  /** `long` arithmetic: the exact result wrapped into 64 bits. */
  function ToLong(x: int): (r: Long)
    ensures LONG_MIN <= x <= LONG_MAX ==> r == x
    ensures (x - r) % 0x1_0000_0000_0000_0000 == 0
  {
    var m := x % 0x1_0000_0000_0000_0000;
    if m <= LONG_MAX then m else m - 0x1_0000_0000_0000_0000
  }

  /** Java's `a / b` for a positive divisor: the quotient rounded toward zero. */
  function Quot(a: int, b: int): (q: int)
    requires b > 0
    ensures a >= 0 ==> 0 <= a - q * b < b
    ensures a < 0 ==> -b < a - q * b <= 0
  {
    if a >= 0 then a / b else -((-a) / b)
  }

  /** The value of a digit character. */
  function DigitOf(c: char): int {
    c as int - '0' as int
  }

  /** The character of a decimal digit. */
  function DigitChar(d: int): (c: char)
    requires 0 <= d < 10
    ensures '0' <= c <= '9' && DigitOf(c) == d
  {
    (d + '0' as int) as char
  }

  predicate IsDigit(c: char) {
    '0' <= c <= '9'
  }

  /** Decimal digits of a natural number, without leading zeros. */
  function NatText(n: nat): (s: string)
    ensures |s| >= 1
    ensures forall i | 0 <= i < |s| :: IsDigit(s[i])
    ensures (|s| == 1) == (n < 10)
    ensures s[0] == '0' ==> s == "0" && n == 0
  {
    if n < 10 then [DigitChar(n)] else NatText(n / 10) + [DigitChar(n % 10)]
  }

  /** The number a string of decimal digits denotes. */
  function DigitsValue(s: string): nat
    requires forall i | 0 <= i < |s| :: IsDigit(s[i])
  {
    if s == [] then 0
    else
      assert IsDigit(s[|s| - 1]);
      var last: nat := DigitOf(s[|s| - 1]);
      DigitsValue(s[..|s| - 1]) * 10 + last
  }

  /** Reading back the digits of `n` gives `n`. */
  lemma {:induction false} NatTextRoundTrip(n: nat)
    ensures DigitsValue(NatText(n)) == n
  {
    if n >= 10 {
      var s := NatText(n);
      assert s[..|s| - 1] == NatText(n / 10);
      NatTextRoundTrip(n / 10);
    }
  }

  /** One- and two-digit numbers are written with one and two digits. */
  lemma NatTextBelowHundred(n: nat)
    requires n < 100
    ensures NatText(n) == if n < 10 then [DigitChar(n)] else [DigitChar(n / 10), DigitChar(n % 10)]
  {
  }

  /** What `"" + n` gives for an `int` n: a minus sign for a negative value, then its digits. */
  function IntText(n: int): (s: string)
    ensures |s| >= 1
    ensures (s[0] == '-') == (n < 0)
    ensures n >= 0 ==> (forall i | 0 <= i < |s| :: IsDigit(s[i])) && DigitsValue(s) == n
    ensures n < 0 ==> |s| >= 2 && (forall i | 1 <= i < |s| :: IsDigit(s[i])) && DigitsValue(s[1..]) == -n
    ensures s[0] == '0' ==> s == "0" && n == 0
    ensures n < 0 ==> s[1] != '0'
  {
    NatTextRoundTrip(if n < 0 then -n else n);
    if n < 0 then
      assert ("-" + NatText(-n))[1..] == NatText(-n);
      "-" + NatText(-n)
    else NatText(n)
  }
}
