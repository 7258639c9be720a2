// Compact printing of a frequency and the number grammar the radio reads it with.
module Decimal {
  import opened Basics
  import opened Text

  function Abs(v: int): nat {
    if v < 0 then -v else v
  }

  function Sign(v: int): string {
    if v < 0 then "-" else ""
  }

  // What a stream prints with std::fixed and six decimals.
  function Fixed6(v: int): string {
    Sign(v) + NatText(Abs(v) / MICRO) + "." + Padded(Abs(v) % MICRO, 6)
  }

  // Trailing zeros of a fraction removed.
  function StripZeros(t: string): (s: string)
    ensures |s| <= |t| && s == t[..|s|]
    ensures s == [] || s[|s| - 1] != '0'
  {
    if t != [] && t[|t| - 1] == '0' then StripZeros(t[..|t| - 1]) else t
  }

  // The shortest decimal text of a value in micro-MHz, stated directly: sign, integer part and,
  // only when there is one, a point and the significant fraction digits.
  function CompactText(v: int): string {
    Sign(v) + UnsignedText(Abs(v))
  }

  function UnsignedText(n: nat): string {
    WithFraction(NatText(n / MICRO), StripZeros(Padded(n % MICRO, 6)))
  }

  function WithFraction(whole: string, fraction: string): string {
    if fraction == [] then whole else whole + "." + fraction
  }

  // Prints with six decimals into a buffer, then pops trailing zeros and a dangling point.
  method FormatSilvusNumber(value: int) returns (text: string)
    ensures text == CompactText(value)
  {
    text := Fixed6(value);
    ghost var head := Sign(value) + NatText(Abs(value) / MICRO) + ".";
    ghost var digits := Padded(Abs(value) % MICRO, 6);
    ghost var kept := digits;
    assert text == head + kept;
    while |text| > 1 && text[|text| - 1] == '0'
      invariant text == head + kept
      invariant StripZeros(kept) == StripZeros(digits)
    {
      assert kept != [];
      assert text[|text| - 1] == kept[|kept| - 1];
      text := text[..|text| - 1];
      kept := kept[..|kept| - 1];
    }
    assert kept != [] ==> text[|text| - 1] == kept[|kept| - 1];
    assert kept == StripZeros(digits) == digits[..|kept|];
    if text != [] && text[|text| - 1] == '.' {
      text := text[..|text| - 1];
    }
  }

  // std::stod on the strict grammar: optional minus sign, digits, optional point with at most six
  // digits after it.
  function ParseDecimal(t: string): Option<int> {
    if t != [] && t[0] == '-' then
      match ParseUnsigned(t[1..])
      case Some(n) => Some(-(n as int))
      case None => None
    else
      match ParseUnsigned(t)
      case Some(n) => Some(n)
      case None => None
  }

  function ParseUnsigned(t: string): Option<nat> {
    var dot := IndexOf(t, '.');
    var whole := t[..dot];
    var fraction := if dot < |t| then t[dot + 1..] else [];
    if whole == [] || !AllDigits(whole) || |fraction| > 6 || !AllDigits(fraction) then None
    else Some(DigitsValue(whole) * MICRO + Shift10(DigitsValue(fraction), 6 - |fraction|))
  }

  lemma {:induction false} Shift10Tenfold(n: nat, k: nat)
    ensures Shift10(n, k + 1) == 10 * Shift10(n, k)
    decreases k
  {
    if k > 0 {
      Shift10Tenfold(10 * n, k - 1);
    }
  }

  lemma {:induction false} StripZerosValue(t: string)
    requires AllDigits(t)
    ensures DigitsValue(t) == Shift10(DigitsValue(StripZeros(t)), |t| - |StripZeros(t)|)
  {
    if t != [] && t[|t| - 1] == '0' {
      var s := t[..|t| - 1];
      StripZerosValue(s);
      Shift10Tenfold(DigitsValue(StripZeros(s)), |s| - |StripZeros(s)|);
    }
  }

  // The significant fraction digits of f micro-MHz.
  lemma FractionDigits(f: nat)
    requires f < MICRO
    ensures var s := StripZeros(Padded(f, 6));
            && AllDigits(s) && |s| <= 6
            && Shift10(DigitsValue(s), 6 - |s|) == f
            && (s == [] <==> f == 0)
  {
    var digits := Padded(f, 6);
    var s := StripZeros(digits);
    assert Pow10(6) == MICRO by {
      assert Pow10(3) == 1000;
    }
    PaddedValue(f, 6);
    StripZerosValue(digits);
    if s != [] {
      LastDigitPositive(s);
    }
  }

  // A digit text that does not end in zero is worth more than nothing.
  lemma LastDigitPositive(t: string)
    requires AllDigits(t) && t != [] && t[|t| - 1] != '0'
    ensures DigitsValue(t) > 0
  {
  }

  lemma ParseWithFraction(whole: string, fraction: string)
    requires whole != [] && AllDigits(whole) && AllDigits(fraction) && |fraction| <= 6
    ensures ParseUnsigned(WithFraction(whole, fraction))
         == Some(DigitsValue(whole) * MICRO + Shift10(DigitsValue(fraction), 6 - |fraction|))
  {
    hide DigitsValue, Shift10, IndexOf;
    var body := WithFraction(whole, fraction);
    if fraction == [] {
      Shift10Zero(6);
      assert DigitsValue([]) == 0 by { DigitsValueEmpty(); }
    } else {
      IndexOfPrefix(whole, '.', fraction);
      assert body[|whole| + 1..] == fraction;
    }
    assert body[..|whole|] == whole;
  }

  lemma DigitsValueEmpty()
    ensures DigitsValue([]) == 0
  {
  }

  lemma Shift10Zero(k: nat)
    ensures Shift10(0, k) == 0
  {
  }

  lemma ParseDecimalSign(v: int, body: string)
    requires ParseUnsigned(body) == Some(Abs(v)) && body != [] && body[0] != '-'
    ensures ParseDecimal(Sign(v) + body) == Some(v)
  {
    if v < 0 {
      assert ("-" + body)[1..] == body;
    } else {
      assert [] + body == body;
    }
  }

  lemma UnsignedRoundTrip(n: nat)
    ensures ParseUnsigned(UnsignedText(n)) == Some(n)
    ensures UnsignedText(n) != [] && UnsignedText(n)[0] != '-'
  {
    hide DigitsValue, Shift10, NatText, StripZeros, Padded, ParseUnsigned;
    var whole, fraction := NatText(n / MICRO), StripZeros(Padded(n % MICRO, 6));
    FractionDigits(n % MICRO);
    NatTextValue(n / MICRO);
    ParseWithFraction(whole, fraction);
    assert UnsignedText(n)[0] == whole[0];
  }

  // Printing then reading is the identity, on every value.
  lemma CompactTextRoundTrip(v: int)
    ensures ParseDecimal(CompactText(v)) == Some(v)
  {
    UnsignedRoundTrip(Abs(v));
    ParseDecimalSign(v, UnsignedText(Abs(v)));
  }

  lemma CompactTextInjective(v: int, w: int)
    requires CompactText(v) == CompactText(w)
    ensures v == w
  {
    CompactTextRoundTrip(v);
    CompactTextRoundTrip(w);
  }

  // The text is canonical: the whole integer part survives the stripping loop, has no leading zero,
  // and a point is always followed by one to six digits of which the last is not zero.
  lemma CompactTextCanonical(v: int)
    ensures var t := CompactText(v);
            var head := Sign(v) + NatText(Abs(v) / MICRO);
            && head <= t
            && (Abs(v) % MICRO == 0 ==> t == head)
            && (Abs(v) % MICRO != 0 ==> |head| + 1 < |t| <= |head| + 7 && t[|head|] == '.' && t[|t| - 1] != '0')
            && '.' !in head
            && (NatText(Abs(v) / MICRO)[0] == '0' ==> Abs(v) < MICRO && |head| == |Sign(v)| + 1)
  {
    FractionDigits(Abs(v) % MICRO);
    NatTextLeading(Abs(v) / MICRO);
    WithFractionShape(v, NatText(Abs(v) / MICRO), StripZeros(Padded(Abs(v) % MICRO, 6)));
  }

  lemma WithFractionShape(v: int, whole: string, fraction: string)
    requires AllDigits(whole) && AllDigits(fraction)
    requires fraction != [] ==> fraction[|fraction| - 1] != '0'
    ensures var t := Sign(v) + WithFraction(whole, fraction);
            var head := Sign(v) + whole;
            && head <= t && '.' !in head
            && (fraction == [] ==> t == head)
            && (fraction != [] ==> |t| == |head| + 1 + |fraction| && t[|head|] == '.' && t[|t| - 1] != '0')
  {
  }
}
