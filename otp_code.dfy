/** The six-digit one-time code: `Math.floor(100000 + Math.random() * 900000)`
    rendered with `toString()`. The random draw is a parameter. */
module OtpCode {

  /** The smallest and largest values the draw can take. */
  const MinCode: nat := 100000
  const MaxCode: nat := 999999

  predicate IsDigit(c: char) {
    '0' <= c <= '9'
  }

  predicate AllDigits(s: string) {
    forall i :: 0 <= i < |s| ==> IsDigit(s[i])
  }

  function DigitValue(c: char): nat
    requires IsDigit(c)
  {
    c as int - '0' as int
  }

  function DigitChar(d: nat): (c: char)
    requires d < 10
    ensures IsDigit(c) && DigitValue(c) == d
  {
    ('0' as int + d) as char
  }

  function Pow10(k: nat): nat {
    if k == 0 then 1 else 10 * Pow10(k - 1)
  }

  /** The decimal rendering of a non-negative integer, without leading zeros. */
  function DecimalString(n: nat): (s: string)
    ensures 1 <= |s| && AllDigits(s)
    decreases n
  {
    if n < 10 then [DigitChar(n)] else DecimalString(n / 10) + [DigitChar(n % 10)]
  }

  /** Reads a string of decimal digits back as a number. */
  function ParseDecimal(s: string): nat
    requires AllDigits(s)
    decreases |s|
  {
    if s == [] then 0 else 10 * ParseDecimal(s[..|s| - 1]) + DigitValue(s[|s| - 1])
  }

  /** Rendering then reading gives the number back. */
  lemma {:induction false} ParseDecimalString(n: nat)
    ensures ParseDecimal(DecimalString(n)) == n
  {
    if n >= 10 {
      var s := DecimalString(n);
      assert s[..|s| - 1] == DecimalString(n / 10);
      ParseDecimalString(n / 10);
    }
  }

  /** A number with k + 1 digits renders as exactly k + 1 characters. */
  lemma {:induction false} DecimalStringLength(n: nat, k: nat)
    requires Pow10(k) <= n < Pow10(k + 1)
    ensures |DecimalString(n)| == k + 1
  {
    if k > 0 {
      assert Pow10(k) == 10 * Pow10(k - 1);
      assert Pow10(k + 1) == 10 * Pow10(k);
      assert Pow10(k - 1) <= n / 10 < Pow10(k);
      DecimalStringLength(n / 10, k - 1);
    } else {
      assert n < 10;
    }
  }

  /** Distinct numbers have distinct renderings. */
  lemma DecimalStringInjective(a: nat, b: nat)
    ensures DecimalString(a) == DecimalString(b) <==> a == b
  {
    ParseDecimalString(a);
    ParseDecimalString(b);
  }

  /** The code issued for a draw: always six decimal digits, and it encodes
      the draw. */
  function IssueCode(draw: int): (code: string)
    requires MinCode <= draw <= MaxCode
    ensures |code| == 6 && AllDigits(code)
    ensures ParseDecimal(code) == draw
  {
    assert Pow10(5) == MinCode && Pow10(6) == MaxCode + 1;
    DecimalStringLength(draw, 5);
    ParseDecimalString(draw);
    DecimalString(draw)
  }

  /** Two draws give the same code only if they are the same draw, so a
      reissued code differs from the previous one whenever the draw does. */
  lemma IssueCodeInjective(a: int, b: int)
    requires MinCode <= a <= MaxCode && MinCode <= b <= MaxCode
    ensures IssueCode(a) == IssueCode(b) <==> a == b
  {
    DecimalStringInjective(a, b);
  }
}
