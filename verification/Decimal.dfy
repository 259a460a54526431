/** Decimal renderings of integers, as the fmt verbs %d and %06d write them. */
module Decimal {

  predicate IsDigit(c: char) { '0' <= c <= '9' }

  function DigitValue(c: char): int { c as int - '0' as int }

  predicate AllDigits(s: string) { forall i :: 0 <= i < |s| ==> IsDigit(s[i]) }

  function DigitChar(d: int): (c: char)
    requires 0 <= d < 10
    ensures IsDigit(c) && DigitValue(c) == d
  {
    (d + '0' as int) as char
  }

  /** The shortest decimal rendering of n. */
  function NatText(n: nat): string {
    if n < 10 then [DigitChar(n)] else NatText(n / 10) + [DigitChar(n % 10)]
  }

  /** The number a digit string stands for. */
  function NatValue(s: string): int {
    if s == [] then 0 else NatValue(s[..|s| - 1]) * 10 + DigitValue(s[|s| - 1])
  }

  lemma {:induction false} NatTextValue(n: nat)
    ensures NatText(n) != [] && AllDigits(NatText(n)) && NatValue(NatText(n)) == n
    ensures |NatText(n)| > 1 ==> NatText(n)[0] != '0'
  {
    if n >= 10 {
      NatTextValue(n / 10);
      assert NatText(n)[..|NatText(n)| - 1] == NatText(n / 10);
    }
  }

  /** %d on a signed integer. */
  function IntText(n: int): string {
    if n < 0 then "-" + NatText(-n) else NatText(n)
  }

  lemma {:induction false} IntTextInjective(a: int, b: int)
    requires IntText(a) == IntText(b)
    ensures a == b
  {
    NatTextValue(if a < 0 then -a else a);
    NatTextValue(if b < 0 then -b else b);
    assert NatText(if a < 0 then -a else a)[0] != '-';
    assert NatText(if b < 0 then -b else b)[0] != '-';
    if a < 0 && b < 0 {
      assert IntText(a)[1..] == NatText(-a);
      assert IntText(b)[1..] == NatText(-b);
    }
  }

  function Zeros(k: nat): string { seq(k, _ => '0') }

  /** %06d: left-padded with zeros to six places, longer numbers in full. */
  function Padded6(n: nat): string {
    var t := NatText(n);
    if |t| < 6 then Zeros(6 - |t|) + t else t
  }

  lemma {:induction false} LeadingZeros(k: nat, s: string)
    ensures NatValue(Zeros(k) + s) == NatValue(s)
  {
    var z := Zeros(k) + s;
    if s != [] {
      LeadingZeros(k, s[..|s| - 1]);
      assert z[..|z| - 1] == Zeros(k) + s[..|s| - 1];
    } else if k > 0 {
      LeadingZeros(k - 1, s);
      assert z[..|z| - 1] == Zeros(k - 1) + s;
    }
  }

  lemma {:induction false} Padded6Value(n: nat)
    ensures Padded6(n) != [] && AllDigits(Padded6(n)) && NatValue(Padded6(n)) == n
    ensures if |NatText(n)| <= 6 then |Padded6(n)| == 6 else Padded6(n) == NatText(n)
  {
    NatTextValue(n);
    if |NatText(n)| < 6 { LeadingZeros(6 - |NatText(n)|, NatText(n)); }
  }

  lemma {:induction false} Padded6Injective(a: nat, b: nat)
    requires Padded6(a) == Padded6(b)
    ensures a == b
  {
    Padded6Value(a);
    Padded6Value(b);
  }
}
