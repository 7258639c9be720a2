// One entry of a radio's frequency profile: "4700" or "2200:20:2380" (low:step:high).
// The adapter expands entries into channels; the radio checks a frequency against them. The two
// programs share no code, so both readings are modelled and compared.
module FrequencyProfile {
  import opened Basics
  import opened Decimal
  import opened Text

  datatype Spec = Malformed | Single(value: int) | Grid(low: int, step: int, high: int)

  predicate WellFormed(spec: Spec) {
    spec.Grid? ==> spec.step > 0 && spec.low <= spec.high
  }

  function SingleSpec(text: string): (s: Spec)
    ensures !s.Grid?
  {
    match ParseDecimal(text)
    case Some(v) => Single(v)
    case None => Malformed
  }

  function GridSpec(low: string, step: string, high: string): (s: Spec)
    ensures WellFormed(s)
    ensures !s.Single?
  {
    match (ParseDecimal(low), ParseDecimal(step), ParseDecimal(high))
    case (Some(l), Some(s), Some(h)) => if s <= 0 || h < l then Malformed else Grid(l, s, h)
    case _ => Malformed
  }

  // The adapter's reading: it looks for exactly two colons.
  function AdapterSpec(text: string): (s: Spec)
    ensures WellFormed(s)
  {
    var first := IndexOf(text, ':');
    if first == |text| then SingleSpec(text)
    else
      var second := first + 1 + IndexOf(text[first + 1..], ':');
      if second == |text| || ':' in text[second + 1..] then Malformed
      else GridSpec(text[..first], text[first + 1..second], text[second + 1..])
  }

  // The fields between colons.
  function Fields(text: string): (parts: seq<string>)
    ensures parts != []
    decreases |text|
  {
    var k := IndexOf(text, ':');
    if k == |text| then [text] else [text[..k]] + Fields(text[k + 1..])
  }

  // The radio's reading: it splits at every colon and wants three parts.
  function RadioSpec(text: string): (s: Spec)
    ensures WellFormed(s)
  {
    if ':' !in text then SingleSpec(text)
    else
      var parts := Fields(text);
      if |parts| != 3 then Malformed else GridSpec(parts[0], parts[1], parts[2])
  }

  lemma FieldsUnfold(text: string)
    ensures var k := IndexOf(text, ':');
            if k == |text| then Fields(text) == [text]
            else Fields(text) == [text[..k]] + Fields(text[k + 1..]) && |Fields(text)| >= 2
  {
    hide IndexOf;
  }

  // Both programs read every entry the same way, malformed ones included.
  lemma SameReading(text: string)
    ensures AdapterSpec(text) == RadioSpec(text)
  {
    hide SingleSpec, GridSpec, IndexOf, Fields;
    var first := IndexOf(text, ':');
    if first < |text| {
      var rest := text[first + 1..];
      var k := IndexOf(rest, ':');
      FieldsUnfold(text);
      FieldsUnfold(rest);
      if k < |rest| {
        var last := rest[k + 1..];
        FieldsUnfold(last);
        assert text[first + 1 + k + 1..] == last;
        assert text[first + 1..first + 1 + k] == rest[..k];
      }
    }
  }

  // ---- expansion (adapter) ----

  // std::floor((high - low) / step + 0.5) in exact arithmetic.
  function StepCount(low: int, step: int, high: int): (count: int)
    requires step > 0
    ensures low <= high ==> count >= 0
  {
    (2 * (high - low) + step) / (2 * step)
  }

  function GridValues(low: int, step: int, high: int, n: nat): seq<int> {
    if n == 0 then []
    else
      var value := low + step * (n - 1);
      GridValues(low, step, high, n - 1) + (if value <= high + 1 then [value] else [])
  }

  // The frequencies an entry contributes to the channel table.
  function Expand(spec: Spec): seq<int>
    requires WellFormed(spec)
  {
    match spec
    case Malformed => []
    case Single(v) => [v]
    case Grid(low, step, high) => GridValues(low, step, high, StepCount(low, step, high) + 1)
  }

  method AddFrequencySpec(freqs: seq<int>, text: string) returns (r: seq<int>)
    ensures r == freqs + Expand(AdapterSpec(text))
  {
    hide ParseDecimal, IndexOf, GridValues;
    r := freqs;
    var firstColon := IndexOf(text, ':');
    if firstColon == |text| {
      match ParseDecimal(text) {
        case Some(v) => r := r + [v];
        case None =>
      }
      return;
    }
    var secondColon := firstColon + 1 + IndexOf(text[firstColon + 1..], ':');
    if secondColon == |text| || ':' in text[secondColon + 1..] {
      return;
    }
    match (ParseDecimal(text[..firstColon]), ParseDecimal(text[firstColon + 1..secondColon]),
           ParseDecimal(text[secondColon + 1..])) {
      case (Some(start), Some(step), Some(end)) =>
        if step <= 0 || end < start {
          return;
        }
        r := PushGrid(r, start, step, end);
      case _ =>
    }
  }

  // The counted loop of the range case.
  method PushGrid(freqs: seq<int>, start: int, step: int, end: int) returns (r: seq<int>)
    requires step > 0 && start <= end
    ensures r == freqs + Expand(Grid(start, step, end))
  {
    r := freqs;
    var count := StepCount(start, step, end);
    for i := 0 to count + 1
      invariant r == freqs + GridValues(start, step, end, i)
    {
      var value := start + step * i;
      if value <= end + 1 {
        r := r + [value];
      }
    }
  }

  // ---- acceptance (radio) ----

  // std::round(a / b): nearest integer, halves away from zero.
  function RoundDiv(a: int, b: int): int
    requires b > 0
  {
    if a >= 0 then (2 * a + b) / (2 * b) else -((2 * -a + b) / (2 * b))
  }

  // The radio's check of frequency f against one entry. On the micro-MHz grid "closer than 10^-6"
  // is equality and the slack of 10^-6 is one unit.
  predicate Accepts(spec: Spec, f: int)
    requires WellFormed(spec)
  {
    match spec
    case Malformed => false
    case Single(v) => f == v
    case Grid(low, step, high) =>
      low - 1 <= f <= high + 1 && low + RoundDiv(f - low, step) * step == f
  }

  method FrequencyMatchesProfile(freq: int, profile: string) returns (ok: bool)
    ensures ok == Accepts(RadioSpec(profile), freq)
  {
    hide ParseDecimal, IndexOf, Fields, RoundDiv;
    if IndexOf(profile, ':') == |profile| {
      match ParseDecimal(profile) {
        case Some(value) => return freq == value;
        case None => return false;
      }
    }
    var parts := SplitAtColons(profile);
    if |parts| != 3 {
      return false;
    }
    match (ParseDecimal(parts[0]), ParseDecimal(parts[1]), ParseDecimal(parts[2])) {
      case (Some(low), Some(step), Some(high)) =>
        if step <= 0 || high < low {
          return false;
        }
        if freq < low - 1 || freq > high + 1 {
          return false;
        }
        var steps := RoundDiv(freq - low, step);
        var candidate := low + steps * step;
        return candidate == freq;
      case _ => return false;
    }
  }

  // The radio's scan for colons.
  method SplitAtColons(profile: string) returns (parts: seq<string>)
    ensures parts == Fields(profile)
  {
    hide IndexOf, Fields;
    parts := [];
    var start := 0;
    assert profile[0..] == profile;
    for pos := 0 to |profile|
      invariant 0 <= start <= pos
      invariant forall i | start <= i < pos :: profile[i] != ':'
      invariant Fields(profile) == parts + Fields(profile[start..])
    {
      if profile[pos] == ':' {
        FieldsStep(profile, start, pos);
        ghost var field, rest := profile[start..pos], Fields(profile[pos + 1..]);
        assert parts + ([field] + rest) == (parts + [field]) + rest;
        parts := parts + [profile[start..pos]];
        start := pos + 1;
      }
    }
    LastField(profile[start..]);
    parts := parts + [profile[start..]];
  }

  lemma LastField(text: string)
    requires ':' !in text
    ensures Fields(text) == [text]
  {
    hide IndexOf;
  }

  lemma FieldsStep(text: string, start: nat, pos: nat)
    requires start <= pos < |text| && text[pos] == ':'
    requires forall i | start <= i < pos :: text[i] != ':'
    ensures Fields(text[start..]) == [text[start..pos]] + Fields(text[pos + 1..])
  {
    var rest := text[start..];
    IndexOfAt(rest, ':', pos - start);
    assert rest[..pos - start] == text[start..pos];
    assert rest[pos - start + 1..] == text[pos + 1..];
  }

  // ---- agreement ----

  // f is the k-th point of the grid that starts at low.
  predicate GridPoint(low: int, step: int, k: int, f: int) {
    f == low + step * k
  }

  lemma {:induction false} GridMember(low: int, step: int, high: int, n: nat, f: int)
    ensures f in GridValues(low, step, high, n)
       <==> f <= high + 1 && exists k :: 0 <= k < n && GridPoint(low, step, k, f)
  {
    if n > 0 {
      GridMember(low, step, high, n - 1, f);
      assert GridPoint(low, step, n - 1, low + step * (n - 1));
    }
  }

  // From step 2 on, no grid point up to the end slack lies beyond the counted loop; with step 1
  // exactly the point in the slack does.
  lemma CountCoversGrid(low: int, step: int, high: int, k: int)
    requires step > 0 && low <= high && low + step * k <= high + 1
    ensures step >= 2 ==> k <= StepCount(low, step, high)
    ensures step == 1 ==> StepCount(low, step, high) == high - low
  {
    var n, d := 2 * (high - low) + step, 2 * step;
    var q := StepCount(low, step, high);
    assert n == d * q + n % d;
    assert d * (k - q) == d * k - d * q;
    assert d * k == 2 * (step * k);
    if step >= 2 && k > q {
      MulAtLeast(d, k - q);
    }
  }

  lemma ExpandedGrid(low: int, step: int, high: int, f: int)
    requires step > 0 && low <= high
    ensures f in Expand(Grid(low, step, high))
       <==> f <= high + (if step == 1 then 0 else 1) && exists k :: k >= 0 && GridPoint(low, step, k, f)
  {
    hide GridValues, StepCount;
    var n := StepCount(low, step, high) + 1;
    GridMember(low, step, high, n, f);
    CountCoversGrid(low, step, high, 0);
    if k :| k >= 0 && GridPoint(low, step, k, f) && f <= high + 1 {
      CountCoversGrid(low, step, high, k);
    }
  }

  lemma AcceptedGrid(low: int, step: int, high: int, f: int)
    requires step > 0 && low <= high
    ensures Accepts(Grid(low, step, high), f)
       <==> low - 1 <= f <= high + 1 && exists k :: GridPoint(low, step, k, f)
  {
    hide RoundDiv;
    if Accepts(Grid(low, step, high), f) {
      assert GridPoint(low, step, RoundDiv(f - low, step), f);
    }
    if k :| GridPoint(low, step, k, f) {
      RoundDivOfMultiple(k, step);
    }
  }

  lemma GridIndexSign(low: int, step: int, k: int, f: int)
    requires step > 0 && GridPoint(low, step, k, f)
    ensures k >= 0 ==> f >= low
    ensures k < 0 ==> f <= low - step
  {
    if k < 0 {
      MulAtLeast(step, -k);
    }
  }

  // What the adapter offers is always accepted by the radio.
  lemma ExpandedIsAccepted(spec: Spec, f: int)
    requires WellFormed(spec) && f in Expand(spec)
    ensures Accepts(spec, f)
  {
    if spec.Grid? {
      ExpandedGrid(spec.low, spec.step, spec.high, f);
      var k :| k >= 0 && GridPoint(spec.low, spec.step, k, f);
      GridIndexSign(spec.low, spec.step, k, f);
      AcceptedGrid(spec.low, spec.step, spec.high, f);
    }
  }

  // The converse fails for a grid of step 10^-6 MHz only, and there on exactly the two points that
  // lie in the slack around the range.
  lemma AcceptedIsExpanded(spec: Spec, f: int)
    requires WellFormed(spec) && Accepts(spec, f)
    ensures f in Expand(spec) <==> !(spec.Grid? && spec.step == 1 && (f == spec.low - 1 || f == spec.high + 1))
  {
    if spec.Grid? {
      ExpandedGrid(spec.low, spec.step, spec.high, f);
      AcceptedGrid(spec.low, spec.step, spec.high, f);
      var k :| GridPoint(spec.low, spec.step, k, f);
      GridIndexSign(spec.low, spec.step, k, f);
      if i :| i >= 0 && GridPoint(spec.low, spec.step, i, f) {
        GridIndexSign(spec.low, spec.step, i, f);
      }
    }
  }

  lemma UnitGridEnds(low: int, high: int)
    requires low <= high
    ensures Accepts(Grid(low, 1, high), low - 1) && Accepts(Grid(low, 1, high), high + 1)
  {
    RoundDivOfMultiple(-1, 1);
    RoundDivOfMultiple(high + 1 - low, 1);
  }

  // The two programs agree on an entry exactly when its step is not a single micro-MHz.
  lemma SpecAgreement(spec: Spec)
    requires WellFormed(spec)
    ensures (forall f :: f in Expand(spec) <==> Accepts(spec, f)) <==> !(spec.Grid? && spec.step == 1)
  {
    hide Expand, Accepts;
    if spec.Grid? && spec.step == 1 {
      UnitGridEnds(spec.low, spec.high);
      AcceptedIsExpanded(spec, spec.high + 1);
    } else {
      forall f ensures f in Expand(spec) <==> Accepts(spec, f) {
        if f in Expand(spec) {
          ExpandedIsAccepted(spec, f);
        }
        if Accepts(spec, f) {
          AcceptedIsExpanded(spec, f);
        }
      }
    }
  }

  // ---- what an entry means ----

  predicate ThreeFields(text: string, a: string, b: string, c: string) {
    ':' !in a && ':' !in b && ':' !in c && text == a + ":" + b + ":" + c
  }

  // The text is low:step:high, three numbers between exactly two colons.
  ghost predicate RangeText(text: string, low: int, step: int, high: int) {
    exists a, b, c ::
      ThreeFields(text, a, b, c) &&
      ParseDecimal(a) == Some(low) && ParseDecimal(b) == Some(step) && ParseDecimal(c) == Some(high)
  }

  lemma TwoColons(a: string, b: string, c: string)
    requires ':' !in a && ':' !in b && ':' !in c
    ensures AdapterSpec(a + ":" + b + ":" + c) == GridSpec(a, b, c)
  {
    hide GridSpec, SingleSpec, IndexOf;
    var text := a + ":" + b + ":" + c;
    var rest := b + ":" + c;
    assert text == a + [':'] + rest && rest == b + [':'] + c;
    IndexOfPrefix(a, ':', rest);
    IndexOfPrefix(b, ':', c);
    assert text[|a| + 1..] == rest && text[..|a|] == a;
    assert text[|a| + 1..|a| + 1 + |b|] == b && text[|a| + 1 + |b| + 1..] == c;
  }

  // A text that is read as a range has the three fields.
  lemma FieldsOfRange(text: string)
    requires AdapterSpec(text).Grid?
    ensures exists a, b, c :: ThreeFields(text, a, b, c) && AdapterSpec(text) == GridSpec(a, b, c)
  {
    hide GridSpec, SingleSpec, IndexOf;
    var first := IndexOf(text, ':');
    var rest := text[first + 1..];
    var second := first + 1 + IndexOf(rest, ':');
    var a, b, c := text[..first], text[first + 1..second], text[second + 1..];
    assert forall i | 0 <= i < |b| :: b[i] == rest[i];
    assert ThreeFields(text, a, b, c);
  }

  // Which range or value an entry denotes, for every text: a range exactly when it is low:step:high
  // with a positive step and low at most high; a value exactly when it has no colon and is a number;
  // and otherwise nothing.
  lemma EntryMeaning(text: string)
    ensures forall l, s, h :: AdapterSpec(text) == Grid(l, s, h) <==> s > 0 && l <= h && RangeText(text, l, s, h)
    ensures forall v :: AdapterSpec(text) == Single(v) <==> ':' !in text && ParseDecimal(text) == Some(v)
  {
    hide ParseDecimal, IndexOf;
    forall l, s, h ensures AdapterSpec(text) == Grid(l, s, h) <==> s > 0 && l <= h && RangeText(text, l, s, h) {
      hide AdapterSpec;
      if AdapterSpec(text) == Grid(l, s, h) {
        FieldsOfRange(text);
      }
      if s > 0 && l <= h && RangeText(text, l, s, h) {
        var a, b, c :| ThreeFields(text, a, b, c) && ParseDecimal(a) == Some(l) && ParseDecimal(b) == Some(s)
                       && ParseDecimal(c) == Some(h);
        TwoColons(a, b, c);
      }
    }
  }

  lemma CompactTextHasNoColon(v: int)
    ensures ':' !in CompactText(v)
  {
    hide NatText, Padded, StripZeros;
    FractionDigits(Abs(v) % MICRO);
  }

  // In particular printed numbers, by both programs.
  lemma PrintedRange(low: int, step: int, high: int)
    ensures var text := CompactText(low) + ":" + CompactText(step) + ":" + CompactText(high);
            && AdapterSpec(text) == (if step > 0 && low <= high then Grid(low, step, high) else Malformed)
            && RadioSpec(text) == AdapterSpec(text)
  {
    hide CompactText, ParseDecimal, AdapterSpec, RadioSpec;
    CompactTextHasNoColon(low);
    CompactTextHasNoColon(step);
    CompactTextHasNoColon(high);
    CompactTextRoundTrip(low);
    CompactTextRoundTrip(step);
    CompactTextRoundTrip(high);
    TwoColons(CompactText(low), CompactText(step), CompactText(high));
    SameReading(CompactText(low) + ":" + CompactText(step) + ":" + CompactText(high));
  }

  lemma PrintedValue(v: int)
    ensures AdapterSpec(CompactText(v)) == Single(v) && RadioSpec(CompactText(v)) == Single(v)
  {
    hide CompactText, ParseDecimal;
    CompactTextRoundTrip(v);
    CompactTextHasNoColon(v);
    SameReading(CompactText(v));
  }

  // The frequencies an entry names for the adapter: its value, or the points of its range up to the end
  // slack, which a unit step does not use.
  ghost predicate Offers(text: string, f: int) {
    || (':' !in text && ParseDecimal(text) == Some(f))
    || exists l, s, h, k ::
         && RangeText(text, l, s, h) && s > 0 && l <= h
         && k >= 0 && GridPoint(l, s, k, f) && f <= h + (if s == 1 then 0 else 1)
  }

  // And for the radio: slack on both sides, whatever the step.
  ghost predicate Admits(text: string, f: int) {
    || (':' !in text && ParseDecimal(text) == Some(f))
    || exists l, s, h, k ::
         RangeText(text, l, s, h) && s > 0 && l <= h && GridPoint(l, s, k, f) && l - 1 <= f <= h + 1
  }

  lemma ExpandMeaning(text: string, f: int)
    ensures f in Expand(AdapterSpec(text)) <==> Offers(text, f)
  {
    hide ParseDecimal, AdapterSpec, RangeText, GridValues;
    EntryMeaning(text);
    match AdapterSpec(text)
    case Grid(l, s, h) => ExpandedGrid(l, s, h, f);
    case _ =>
  }

  lemma AcceptsMeaning(text: string, f: int)
    ensures Accepts(RadioSpec(text), f) <==> Admits(text, f)
  {
    hide ParseDecimal, AdapterSpec, RadioSpec, RangeText;
    SameReading(text);
    EntryMeaning(text);
    match AdapterSpec(text)
    case Grid(l, s, h) => AcceptedGrid(l, s, h, f);
    case _ =>
  }

  lemma RoundDivOfMultiple(k: int, b: int)
    requires b > 0
    ensures RoundDiv(k * b, b) == k
  {
    var a := k * b;
    if k >= 0 {
      assert a >= 0;
      DivUnique(2 * a + b, 2 * b, k);
    } else {
      assert a < 0 by { assert (-k) * b > 0; }
      assert -a == (-k) * b;
      DivUnique(2 * -a + b, 2 * b, -k);
    }
  }

  lemma DivUnique(n: int, d: int, q: int)
    requires d > 0 && d * q <= n < d * q + d
    ensures n / d == q
  {
    var r, m := n / d, n % d;
    assert n == d * r + m;
    assert d * (q - r) == d * q - d * r;
    assert d * (r - q) == d * r - d * q;
    if q > r {
      MulAtLeast(d, q - r);
    } else if r > q {
      MulAtLeast(d, r - q);
    }
  }

  lemma MulAtLeast(d: int, x: int)
    requires d > 0 && x >= 1
    ensures d * x >= d
  {
  }
}
