/**
 * Decimal rendering of integers, as `Integer.toString` and `Long.toString`
 * produce it, and the parse that undoes it.
 */
module Decimal {

  import opened Wrappers

  predicate IsDigit(c: char) {
    '0' <= c <= '9'
  }

  predicate AllDigits(s: string) {
    forall i :: 0 <= i < |s| ==> IsDigit(s[i])
  }

  function DigitChar(d: int): (c: char)
    requires 0 <= d < 10
    ensures IsDigit(c) && c as int - '0' as int == d
  {
    ('0' as int + d) as char
  }

  function DigitValue(c: char): (d: nat)
    requires IsDigit(c)
    ensures d < 10 && DigitChar(d) == c
  {
    c as int - '0' as int
  }

  /** The decimal digits of `n`, most significant first, without leading zeros. */
  function Digits(n: nat): (s: string)
    ensures 1 <= |s| && AllDigits(s)
    ensures |s| > 1 ==> s[0] != '0'
    ensures s[|s| - 1] == DigitChar(n % 10)
    decreases n
  {
    if n < 10 then [DigitChar(n)] else Digits(n / 10) + [DigitChar(n % 10)]
  }

  /** Java's `Long.toString` (and `Integer.toString`): a minus sign, then the digits of the magnitude. */
  function JavaToString(i: int): (s: string)
    ensures 1 <= |s|
    ensures i >= 0 <==> IsDigit(s[0])
  {
    if i < 0 then "-" + Digits(-i) else Digits(i)
  }

  /** The value of a string of decimal digits. */
  function ParseDigits(s: string): (n: nat)
    requires AllDigits(s)
    decreases |s|
  {
    if s == [] then 0 else ParseDigits(s[..|s| - 1]) * 10 + DigitValue(s[|s| - 1])
  }

  /** The inverse of JavaToString. */
  function ParseJavaLong(s: string): (r: Option<int>)
  {
    if |s| >= 2 && s[0] == '-' && AllDigits(s[1..]) then Some(0 - ParseDigits(s[1..]) as int)
    else if |s| >= 1 && AllDigits(s) then Some(ParseDigits(s))
    else None
  }

  /** Parsing the digits of `n` gives `n` back. */
  lemma {:induction false} ParseDigitsOfDigits(n: nat)
    ensures ParseDigits(Digits(n)) == n
    decreases n
  {
    if n >= 10 {
      var s := Digits(n);
      assert s[..|s| - 1] == Digits(n / 10);
      ParseDigitsOfDigits(n / 10);
    }
  }

  /** A three-digit number renders as exactly its three digits. */
  lemma ThreeDigits(n: nat)
    requires 100 <= n <= 999
    ensures Digits(n) == [DigitChar(n / 100), DigitChar(n / 10 % 10), DigitChar(n % 10)]
  {
    assert Digits(n / 10) == [DigitChar(n / 100), DigitChar(n / 10 % 10)];
  }

  /** The place values of a three-digit number written as digits a, b, c. */
  lemma PlaceValues(a: int, b: int, c: int)
    requires 1 <= a < 10 && 0 <= b < 10 && 0 <= c < 10
    ensures var n := 100 * a + 10 * b + c;
      n % 10 == c && n / 10 == 10 * a + b && (n / 10) % 10 == b && n / 10 / 10 == a
  {
  }

  /** Three digits worth at least 100 are the rendering of their value. */
  lemma ThreeDigitsOfParse(s: string)
    requires |s| == 3 && AllDigits(s) && ParseDigits(s) >= 100
    ensures ParseDigits(s) <= 999 && Digits(ParseDigits(s)) == s
  {
    var a, b, c := DigitValue(s[0]), DigitValue(s[1]), DigitValue(s[2]);
    assert s[..2][..1] == s[..1] && s[..1][..0] == [];
    assert ParseDigits(s[..1]) == a;
    assert ParseDigits(s[..2]) == a * 10 + b;
    var n := ParseDigits(s);
    assert n == 100 * a + 10 * b + c;
    assert 1 <= a;
    PlaceValues(a, b, c);
    assert Digits(n / 10 / 10) == [s[0]];
    assert Digits(n / 10) == [s[0], s[1]];
  }

  /** Long.toString is decoded by ParseJavaLong. */
  lemma {:induction false} JavaToStringRoundTrip(i: int)
    ensures ParseJavaLong(JavaToString(i)) == Some(i)
  {
    var s := JavaToString(i);
    if i < 0 {
      assert s[1..] == Digits(-i);
      ParseDigitsOfDigits(-i);
      assert |s| >= 2 && s[0] == '-' && AllDigits(s[1..]);
    } else {
      ParseDigitsOfDigits(i);
      assert !(|s| >= 2 && s[0] == '-');
    }
  }

  /** Distinct integers render as distinct strings. */
  lemma JavaToStringInjective(i: int, j: int)
    ensures JavaToString(i) == JavaToString(j) ==> i == j
  {
    JavaToStringRoundTrip(i);
    JavaToStringRoundTrip(j);
  }
}
