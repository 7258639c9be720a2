// Decimal text: what std::to_string prints and std::stoi / std::stod read back.
// Frequencies are integers in units of 10^-6 MHz ("micro-MHz").
module Text {
  import opened Basics

  const MICRO: nat := 1_000_000

  predicate IsDigit(c: char) {
    '0' <= c <= '9'
  }

  predicate AllDigits(t: string) {
    forall i | 0 <= i < |t| :: IsDigit(t[i])
  }

  function DigitChar(d: nat): (c: char)
    requires d < 10
    ensures IsDigit(c) && DigitValue(c) == d
  {
    ('0' as int + d) as char
  }

  function DigitValue(c: char): (d: nat)
    requires IsDigit(c)
    ensures d < 10
  {
    c as int - '0' as int
  }

  // The text std::to_string gives for a non-negative integer.
  function NatText(n: nat): (t: string)
    ensures t != [] && AllDigits(t)
  {
    if n < 10 then [DigitChar(n)] else NatText(n / 10) + [DigitChar(n % 10)]
  }

  function DigitsValue(t: string): nat
    requires AllDigits(t)
  {
    if t == [] then 0 else 10 * DigitsValue(t[..|t| - 1]) + DigitValue(t[|t| - 1])
  }

  lemma {:induction false} NatTextValue(n: nat)
    ensures DigitsValue(NatText(n)) == n
  {
    if n >= 10 {
      NatTextValue(n / 10);
      var t := NatText(n / 10);
      assert NatText(n)[..|t|] == t;
    }
  }

  // No leading zero: the only text of a number is its shortest one.
  lemma {:induction false} NatTextLeading(n: nat)
    ensures NatText(n)[0] == '0' ==> n == 0 && |NatText(n)| == 1
  {
    if n >= 10 {
      NatTextLeading(n / 10);
    }
  }

  function IntText(n: int): (t: string)
    ensures t != []
  {
    if n < 0 then "-" + NatText(-n) else NatText(n)
  }

  // std::stoi on the strict grammar: an optional minus sign and at least one digit.
  function ParseInt(t: string): Option<int> {
    if t != [] && t[0] == '-' then
      if t[1..] == [] || !AllDigits(t[1..]) then None else Some(-(DigitsValue(t[1..]) as int))
    else
      if t == [] || !AllDigits(t) then None else Some(DigitsValue(t))
  }

  lemma IntTextRoundTrip(n: int)
    ensures ParseInt(IntText(n)) == Some(n)
  {
    hide NatText, DigitsValue;
    if n < 0 {
      NatTextValue(-n);
      assert IntText(n)[1..] == NatText(-n);
    } else {
      NatTextValue(n);
      assert NatText(n)[0] != '-';
    }
  }

  // Position of the first c in t, or |t|.
  function IndexOf(t: string, c: char): (k: nat)
    ensures k <= |t|
    ensures k < |t| ==> t[k] == c
    ensures forall i | 0 <= i < k :: t[i] != c
    ensures k == |t| <==> c !in t
  {
    if t == [] || t[0] == c then 0 else 1 + IndexOf(t[1..], c)
  }

  lemma IndexOfPrefix(a: string, c: char, b: string)
    requires c !in a
    ensures IndexOf(a + [c] + b, c) == |a|
  {
    var t := a + [c] + b;
    assert t[|a|] == c;
    assert forall i | 0 <= i < |a| :: t[i] == a[i];
  }

  lemma IndexOfAt(t: string, c: char, k: nat)
    requires k < |t| && t[k] == c && forall i | 0 <= i < k :: t[i] != c
    ensures IndexOf(t, c) == k
  {
    var j := IndexOf(t, c);
    assert !(j < k);
  }

  // ASCII lower case.
  function Lower(t: string): (r: string)
    ensures |r| == |t|
  {
    seq(|t|, i requires 0 <= i < |t| => if 'A' <= t[i] <= 'Z' then (t[i] as int + 32) as char else t[i])
  }

  function Pow10(k: nat): (p: nat)
    ensures p > 0
  {
    if k == 0 then 1 else 10 * Pow10(k - 1)
  }

  // n followed by k zeros.
  function Shift10(n: nat, k: nat): nat
    decreases k
  {
    if k == 0 then n else Shift10(10 * n, k - 1)
  }

  // Exactly k digits of n, zero padded on the left.
  function Padded(n: nat, k: nat): (t: string)
    ensures |t| == k && AllDigits(t)
  {
    if k == 0 then [] else Padded(n / 10, k - 1) + [DigitChar(n % 10)]
  }

  lemma LastDigitValue(t: string, c: char)
    requires AllDigits(t) && IsDigit(c)
    ensures AllDigits(t + [c]) && DigitsValue(t + [c]) == 10 * DigitsValue(t) + DigitValue(c)
  {
    assert (t + [c])[..|t|] == t;
  }

  lemma {:induction false} PaddedValue(n: nat, k: nat)
    requires n < Pow10(k)
    ensures DigitsValue(Padded(n, k)) == n
  {
    if k > 0 {
      assert n / 10 < Pow10(k - 1);
      PaddedValue(n / 10, k - 1);
      LastDigitValue(Padded(n / 10, k - 1), DigitChar(n % 10));
    }
  }
}
