/** Decimal numerals as the %d verb prints them, and when a label after one can be told apart from it. */
module Decimals {

  function Digit(d: nat): char
    requires d < 10
  {
    ('0' as int + d) as char
  }

  predicate IsDigit(c: char) {
    '0' <= c <= '9'
  }

  function Decimal(n: nat): (s: string)
    ensures s != [] && forall i :: 0 <= i < |s| ==> IsDigit(s[i])
  {
    if n < 10 then [Digit(n)] else Decimal(n / 10) + [Digit(n % 10)]
  }

  /** What a numeral stands for. */
  function Value(s: string): nat
    requires forall i :: 0 <= i < |s| ==> IsDigit(s[i])
  {
    if s == [] then 0
    else
      var last := s[|s| - 1];
      assert IsDigit(last);
      10 * Value(s[..|s| - 1]) + (last as int - '0' as int)
  }

  /** Reading a printed numeral gives the number back, and nothing but 0 is printed with a leading zero. */
  lemma {:induction false} ReadBack(n: nat)
    ensures Value(Decimal(n)) == n && (n > 0 ==> Decimal(n)[0] != '0')
    decreases n
  {
    if n >= 10 {
      assert Decimal(n)[..|Decimal(n)| - 1] == Decimal(n / 10);
      ReadBack(n / 10);
    } else {
      assert Decimal(n)[..0] == [];
    }
  }

  lemma DecimalInjective(a: nat, b: nat)
    requires Decimal(a) == Decimal(b)
    ensures a == b
  {
    ReadBack(a);
    ReadBack(b);
  }

  /** A label that cannot be read as more digits. */
  predicate IsLabel(s: string) {
    s == [] || !IsDigit(s[0])
  }

  function DigitPrefix(s: string): nat {
    if s != [] && IsDigit(s[0]) then 1 + DigitPrefix(s[1..]) else 0
  }

  lemma {:induction false} DigitPrefixStops(digits: string, tail: string)
    requires (forall i :: 0 <= i < |digits| ==> IsDigit(digits[i])) && IsLabel(tail)
    ensures DigitPrefix(digits + tail) == |digits|
    decreases |digits|
  {
    if digits == [] {
      assert digits + tail == tail;
    } else {
      assert (digits + tail)[1..] == digits[1..] + tail;
      DigitPrefixStops(digits[1..], tail);
    }
  }

  /** A numeral followed by such a label determines both. */
  lemma NumeralThenLabel(a: nat, x: string, b: nat, y: string)
    requires IsLabel(x) && IsLabel(y)
    requires Decimal(a) + x == Decimal(b) + y
    ensures a == b && x == y
  {
    var s := Decimal(a) + x;
    DigitPrefixStops(Decimal(a), x);
    DigitPrefixStops(Decimal(b), y);
    var n := DigitPrefix(s);
    assert s[..n] == Decimal(a) && s[..n] == Decimal(b) && s[n..] == x && s[n..] == y;
    DecimalInjective(a, b);
  }
}
