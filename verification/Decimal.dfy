/** Decimal text of natural numbers: the encoding of JSON integers and of exact money amounts. */
module Decimal {

  function Pow10(k: nat): (p: nat)
    ensures p >= 1
  {
    if k == 0 then 1 else 10 * Pow10(k - 1)
  }

  predicate Digit(c: char) {
    '0' <= c <= '9'
  }

  predicate Digits(s: string) {
    forall i | 0 <= i < |s| :: Digit(s[i])
  }

  function DigitOf(n: nat): (c: char)
    requires n < 10
    ensures Digit(c) && ValueOf(c) == n
  {
    '0' + n as char
  }

  function ValueOf(c: char): (n: nat)
    requires Digit(c)
    ensures n < 10
  {
    c as int - '0' as int
  }

  /** The shortest decimal text. */
  function Text(n: nat): (s: string)
    ensures Digits(s) && |s| >= 1
  {
    if n < 10 then [DigitOf(n)] else Text(n / 10) + [DigitOf(n % 10)]
  }

  function Value(s: string): nat
    requires Digits(s)
  {
    if s == [] then 0 else Value(s[..|s| - 1]) * 10 + ValueOf(s[|s| - 1])
  }

  function Zeros(k: nat): (s: string)
    ensures |s| == k && Digits(s)
  {
    if k == 0 then "" else Zeros(k - 1) + "0"
  }

  lemma {:induction false} ValueOfText(n: nat)
    ensures Value(Text(n)) == n
  {
    if n >= 10 {
      ValueOfText(n / 10);
      assert Text(n)[..|Text(n)| - 1] == Text(n / 10);
    } else {
      assert Text(n)[..0] == [];
    }
  }

  lemma {:induction false} NoLeadingZero(n: nat)
    ensures Text(n) == "0" || Text(n)[0] != '0'
    ensures n > 0 ==> Text(n)[0] != '0'
  {
    if n >= 10 {
      NoLeadingZero(n / 10);
    } else {
      assert Text(n) == [DigitOf(n)];
    }
  }

  lemma {:induction false} ValueConcat(a: string, b: string)
    requires Digits(a) && Digits(b)
    ensures Digits(a + b) && Value(a + b) == Value(a) * Pow10(|b|) + Value(b)
    decreases |b|
  {
    if b == [] {
      assert a + b == a;
    } else {
      var s := a + b;
      var init := b[..|b| - 1];
      assert s[..|s| - 1] == a + init;
      ValueConcat(a, init);
      ShiftDigit(Value(a), Pow10(|init|), Value(init), ValueOf(b[|b| - 1]));
    }
  }

  lemma ShiftDigit(x: int, p: int, v: int, e: int)
    ensures (x * p + v) * 10 + e == x * (10 * p) + (v * 10 + e)
  {
  }

  lemma {:induction false} ValueOfZeros(k: nat)
    ensures Value(Zeros(k)) == 0
  {
    if k > 0 {
      ValueOfZeros(k - 1);
      assert Zeros(k)[..k - 1] == Zeros(k - 1);
    }
  }

  lemma {:induction false} ValueBound(s: string)
    requires Digits(s)
    ensures Value(s) < Pow10(|s|)
  {
    if s != [] {
      ValueBound(s[..|s| - 1]);
    }
  }

  /** A longer number never has a shorter text. */
  lemma {:induction false} LengthMonotone(a: nat, b: nat)
    requires a <= b
    ensures |Text(a)| <= |Text(b)|
    decreases a
  {
    if a >= 10 {
      LengthMonotone(a / 10, b / 10);
    }
  }

  lemma {:induction false} LengthExact(n: nat, k: nat)
    requires k >= 1 && n < Pow10(k)
    ensures |Text(n)| <= k
    ensures n >= Pow10(k - 1) ==> |Text(n)| == k
    decreases k
  {
    if n >= 10 {
      assert k >= 2;
      LengthExact(n / 10, k - 1);
    } else if k >= 2 {
      assert Pow10(k - 1) == 10 * Pow10(k - 2);
    }
  }
}
