// The channel table: which frequencies the adapter derives from the radio's profiles, in which
// order, and how a frequency is looked up again. Channels are numbered from 1.
module ChannelTable {
  import opened Basics
  import opened FrequencyProfile
  import opened Json

  // Lookups accept a difference below 0.001 MHz.
  const TOLERANCE: int := 1000

  // ---- collecting entries from a reply ----

  function EntryTexts(entries: seq<Json>): seq<string> {
    if entries == [] then []
    else
      var last := entries[|entries| - 1];
      EntryTexts(entries[..|entries| - 1]) + (if last.Str? then [last.text] else [])
  }

  // The entries one array element of the reply offers: none unless it is an object with an array
  // under "frequencies".
  function ProfileEntries(item: Json): seq<Json> {
    if item.Obj? && "frequencies" in item.fields && item.fields["frequencies"].Arr?
    then item.fields["frequencies"].items
    else []
  }

  function ReplyTexts(items: seq<Json>): seq<string> {
    if items == [] then []
    else ReplyTexts(items[..|items| - 1]) + EntryTexts(ProfileEntries(items[|items| - 1]))
  }

  function ExpandAll(texts: seq<string>): seq<int> {
    if texts == [] then []
    else ExpandAll(texts[..|texts| - 1]) + Expand(AdapterSpec(texts[|texts| - 1]))
  }

  // ---- sorting and deduplication ----

  predicate Sorted(s: seq<int>) {
    forall i, j | 0 <= i < j < |s| :: s[i] <= s[j]
  }

  predicate StrictlyIncreasing(s: seq<int>) {
    forall i, j | 0 <= i < j < |s| :: s[i] < s[j]
  }

  function Insert(x: int, s: seq<int>): (r: seq<int>)
    requires Sorted(s)
    ensures Sorted(r) && forall y :: y in r <==> y == x || y in s
  {
    if s == [] then [x]
    else if x <= s[0] then [x] + s
    else
      var t := Insert(x, s[1..]);
      assert forall j | 0 <= j < |t| :: t[j] in t;
      [s[0]] + t
  }

  // std::sort, as far as its result is visible after deduplication.
  function Sort(s: seq<int>): (r: seq<int>)
    ensures Sorted(r) && forall y :: y in r <==> y in s
  {
    if s == [] then [] else Insert(s[0], Sort(s[1..]))
  }

  // std::unique followed by erase: adjacent duplicates removed.
  function Unique(s: seq<int>): (r: seq<int>)
    requires Sorted(s)
    ensures StrictlyIncreasing(r) && forall y :: y in r <==> y in s
  {
    if |s| <= 1 then s
    else if s[0] == s[1] then Unique(s[1..])
    else
      var t := Unique(s[1..]);
      assert forall j | 0 <= j < |t| :: t[j] in t;
      [s[0]] + t
  }

  function SortUnique(s: seq<int>): seq<int> {
    Unique(Sort(s))
  }

  // There is only one strictly increasing sequence with given values, so the table does not depend
  // on how the library sorts.
  lemma {:induction false} IncreasingDetermined(a: seq<int>, b: seq<int>)
    requires StrictlyIncreasing(a) && StrictlyIncreasing(b) && forall y :: y in a <==> y in b
    ensures a == b
  {
    if a == [] {
      assert forall i | 0 <= i < |b| :: b[i] in b;
    } else {
      assert a[0] in b && b[0] in a;
      assert a[0] == b[0];
      forall y ensures y in a[1..] <==> y in b[1..] {
        assert y in a[1..] <==> y in a && y != a[0];
        assert y in b[1..] <==> y in b && y != b[0];
      }
      IncreasingDetermined(a[1..], b[1..]);
    }
  }

  // ---- the table ----

  // The table for the array under "result" of a supported_frequency_profiles reply.
  function Table(items: seq<Json>): seq<int> {
    SortUnique(ExpandAll(ReplyTexts(items)))
  }

  method ParseSupportedFrequencies(result: Option<Json>) returns (freqs: seq<int>)
    ensures freqs == if result.Some? && result.value.Arr? then Table(result.value.items) else []
  {
    hide ExpandAll, EntryTexts, SortUnique, ReplyTexts, ProfileEntries;
    freqs := [];
    if result.None? || !result.value.Arr? {
      return;
    }
    var items := result.value.items;
    NoTexts();
    for i := 0 to |items|
      invariant freqs == ExpandAll(ReplyTexts(items[..i]))
    {
      ReplyTextsStep(items, i);
      if !items[i].Obj? || "frequencies" !in items[i].fields || !items[i].fields["frequencies"].Arr? {
        continue;
      }
      freqs := AddEntries(freqs, ReplyTexts(items[..i]), items[i].fields["frequencies"].items);
    }
    assert items[..|items|] == items;
    freqs := SortUnique(freqs);
  }

  lemma NoTexts()
    ensures ReplyTexts([]) == [] && EntryTexts([]) == [] && ExpandAll([]) == []
  {
  }

  lemma ReplyTextsStep(items: seq<Json>, i: nat)
    requires i < |items|
    ensures ReplyTexts(items[..i + 1]) == ReplyTexts(items[..i]) + EntryTexts(ProfileEntries(items[i]))
    ensures var item := items[i];
            if item.Obj? && "frequencies" in item.fields && item.fields["frequencies"].Arr?
            then ProfileEntries(item) == item.fields["frequencies"].items
            else ReplyTexts(items[..i + 1]) == ReplyTexts(items[..i])
  {
    hide EntryTexts;
    NoTexts();
    assert items[..i + 1][..i] == items[..i];
    assert ReplyTexts(items[..i]) + [] == ReplyTexts(items[..i]);
  }

  lemma EntryTextsStep(before: seq<string>, entries: seq<Json>, j: nat)
    requires j < |entries|
    ensures var texts := before + EntryTexts(entries[..j]);
            before + EntryTexts(entries[..j + 1]) == if entries[j].Str? then texts + [entries[j].text] else texts
  {
    assert entries[..j + 1][..j] == entries[..j];
  }

  lemma ExpandAllStep(texts: seq<string>, text: string)
    ensures ExpandAll(texts + [text]) == ExpandAll(texts) + Expand(AdapterSpec(text))
  {
    assert (texts + [text])[..|texts|] == texts;
  }

  // The inner loop over the entries of one profile.
  method AddEntries(freqs: seq<int>, ghost before: seq<string>, entries: seq<Json>) returns (r: seq<int>)
    requires freqs == ExpandAll(before)
    ensures r == ExpandAll(before + EntryTexts(entries))
  {
    hide Expand, AdapterSpec, ExpandAll, EntryTexts;
    r := freqs;
    NoTexts();
    assert before + [] == before;
    for j := 0 to |entries|
      invariant r == ExpandAll(before + EntryTexts(entries[..j]))
    {
      EntryTextsStep(before, entries, j);
      if !entries[j].Str? {
        continue;
      }
      ExpandAllStep(before + EntryTexts(entries[..j]), entries[j].text);
      r := AddFrequencySpec(r, entries[j].text);
    }
    assert entries[..|entries|] == entries;
  }

  lemma {:induction false} ExpandAllMember(texts: seq<string>, f: int)
    ensures f in ExpandAll(texts) <==> exists text :: text in texts && f in Expand(AdapterSpec(text))
  {
    hide Expand, AdapterSpec;
    if texts != [] {
      var last := texts[|texts| - 1];
      ExpandAllMember(texts[..|texts| - 1], f);
      assert texts == texts[..|texts| - 1] + [last];
      assert forall text :: text in texts <==> text in texts[..|texts| - 1] || text == last;
    }
  }

  // The table is strictly increasing and holds exactly the expansions of the entries; malformed
  // entries expand to nothing.
  lemma TableIsUnion(items: seq<Json>)
    ensures StrictlyIncreasing(Table(items))
    ensures forall f :: f in Table(items)
                   <==> exists text :: text in ReplyTexts(items) && f in Expand(AdapterSpec(text))
  {
    hide Expand, AdapterSpec, Sort, Unique, ExpandAll, ReplyTexts;
    forall f ensures f in Table(items)
                <==> exists text :: text in ReplyTexts(items) && f in Expand(AdapterSpec(text)) {
      ExpandAllMember(ReplyTexts(items), f);
    }
  }

  // ---- the radio's side ----

  datatype Profile = Profile(frequencies: seq<string>, bandwidth: string, antennaMask: string)

  function PublishedProfile(p: Profile): Json {
    Obj(map["frequencies" := Strings(p.frequencies), "bandwidth" := Str(p.bandwidth),
            "antenna_mask" := Str(p.antennaMask)])
  }

  // The array a radio with these profiles answers supported_frequency_profiles with.
  function Published(profiles: seq<Profile>): (items: seq<Json>)
    ensures |items| == |profiles|
  {
    seq(|profiles|, i requires 0 <= i < |profiles| => PublishedProfile(profiles[i]))
  }

  // Whether some entry of some profile accepts frequency f.
  predicate Accepted(profiles: seq<Profile>, f: int) {
    exists i, j | 0 <= i < |profiles| && 0 <= j < |profiles[i].frequencies| ::
      Accepts(RadioSpec(profiles[i].frequencies[j]), f)
  }

  function Listed(profiles: seq<Profile>): seq<string> {
    if profiles == [] then []
    else Listed(profiles[..|profiles| - 1]) + profiles[|profiles| - 1].frequencies
  }

  lemma {:induction false} EntryTextsOfStrings(texts: seq<string>)
    ensures EntryTexts(Strings(texts).items) == texts
  {
    if texts != [] {
      var n := |texts| - 1;
      EntryTextsOfStrings(texts[..n]);
      assert Strings(texts).items[..n] == Strings(texts[..n]).items;
    }
  }

  lemma {:induction false} PublishedTexts(profiles: seq<Profile>)
    ensures ReplyTexts(Published(profiles)) == Listed(profiles)
  {
    if profiles != [] {
      var n := |profiles| - 1;
      PublishedTexts(profiles[..n]);
      assert Published(profiles)[..n] == Published(profiles[..n]);
      EntryTextsOfStrings(profiles[n].frequencies);
      assert ProfileEntries(PublishedProfile(profiles[n])) == Strings(profiles[n].frequencies).items;
    }
  }

  lemma {:induction false} ListedMember(profiles: seq<Profile>, text: string)
    ensures text in Listed(profiles)
       <==> exists i, j | 0 <= i < |profiles| && 0 <= j < |profiles[i].frequencies| ::
          profiles[i].frequencies[j] == text
  {
    if profiles != [] {
      var n := |profiles| - 1;
      ListedMember(profiles[..n], text);
    }
  }

  lemma AcceptedByEntry(profiles: seq<Profile>, f: int)
    ensures Accepted(profiles, f) <==> exists text :: text in Listed(profiles) && Accepts(RadioSpec(text), f)
  {
    hide Accepts, RadioSpec, Listed;
    if Accepted(profiles, f) {
      var i, j :| 0 <= i < |profiles| && 0 <= j < |profiles[i].frequencies| &&
                  Accepts(RadioSpec(profiles[i].frequencies[j]), f);
      ListedMember(profiles, profiles[i].frequencies[j]);
    }
    if text :| text in Listed(profiles) && Accepts(RadioSpec(text), f) {
      ListedMember(profiles, text);
    }
  }

  // Every channel the adapter derives from what a radio publishes is accepted by that radio.
  lemma OfferedIsAccepted(profiles: seq<Profile>, f: int)
    requires f in Table(Published(profiles))
    ensures Accepted(profiles, f)
  {
    hide Expand, AdapterSpec, RadioSpec, Accepts, Table, ReplyTexts, Listed;
    TableIsUnion(Published(profiles));
    PublishedTexts(profiles);
    var text :| text in Listed(profiles) && f in Expand(AdapterSpec(text));
    SameReading(text);
    ExpandedIsAccepted(AdapterSpec(text), f);
    AcceptedByEntry(profiles, f);
  }

  // The two points around a range with a step of one micro-MHz are offered by some other entry.
  predicate UnitGridsCovered(profiles: seq<Profile>) {
    forall text | text in Listed(profiles) ::
      var spec := RadioSpec(text);
      spec.Grid? && spec.step == 1 ==>
        spec.low - 1 in Table(Published(profiles)) && spec.high + 1 in Table(Published(profiles))
  }

  // Over a whole radio the offered and the accepted frequencies are the same set exactly when the
  // slack points of unit-step ranges, if there are any such ranges, are offered otherwise.
  lemma ProfileAgreement(profiles: seq<Profile>)
    ensures (forall f :: f in Table(Published(profiles)) <==> Accepted(profiles, f))
       <==> UnitGridsCovered(profiles)
  {
    hide Expand, AdapterSpec, RadioSpec, Accepts, Accepted, Table, ReplyTexts, Listed;
    if forall f :: f in Table(Published(profiles)) <==> Accepted(profiles, f) {
      forall text | text in Listed(profiles) && RadioSpec(text).Grid? && RadioSpec(text).step == 1
        ensures Accepted(profiles, RadioSpec(text).low - 1) && Accepted(profiles, RadioSpec(text).high + 1)
      {
        UnitGridEnds(RadioSpec(text).low, RadioSpec(text).high);
        AcceptedByEntry(profiles, RadioSpec(text).low - 1);
        AcceptedByEntry(profiles, RadioSpec(text).high + 1);
      }
    }
    if UnitGridsCovered(profiles) {
      forall f ensures f in Table(Published(profiles)) <==> Accepted(profiles, f) {
        if f in Table(Published(profiles)) {
          OfferedIsAccepted(profiles, f);
        }
        if Accepted(profiles, f) {
          AcceptedIsOffered(profiles, f);
        }
      }
    }
  }

  lemma AcceptedIsOffered(profiles: seq<Profile>, f: int)
    requires UnitGridsCovered(profiles) && Accepted(profiles, f)
    ensures f in Table(Published(profiles))
  {
    hide Expand, AdapterSpec, RadioSpec, Accepts, Accepted, Table, ReplyTexts, Listed;
    AcceptedByEntry(profiles, f);
    var text :| text in Listed(profiles) && Accepts(RadioSpec(text), f);
    SameReading(text);
    AcceptedIsExpanded(RadioSpec(text), f);
    TableIsUnion(Published(profiles));
    PublishedTexts(profiles);
  }

  // The entry at position j of profile i, stated without any list of texts.
  predicate EntryAt(profiles: seq<Profile>, i: int, j: int, text: string) {
    0 <= i < |profiles| && 0 <= j < |profiles[i].frequencies| && profiles[i].frequencies[j] == text
  }

  // What the adapter derives from a radio's reply: exactly the frequencies the entries offer. What the
  // radio accepts: exactly those they admit.
  lemma TableMeaning(profiles: seq<Profile>, f: int)
    ensures f in Table(Published(profiles)) <==> exists i, j, text :: EntryAt(profiles, i, j, text) && Offers(text, f)
    ensures Accepted(profiles, f) <==> exists i, j, text :: EntryAt(profiles, i, j, text) && Admits(text, f)
  {
    hide Expand, AdapterSpec, RadioSpec, Accepts, Table, Listed, ReplyTexts, Offers, Admits;
    TableIsUnion(Published(profiles));
    PublishedTexts(profiles);
    forall i, j, text | EntryAt(profiles, i, j, text)
      ensures text in Listed(profiles) && (f in Expand(AdapterSpec(text)) <==> Offers(text, f))
      ensures Accepts(RadioSpec(text), f) <==> Admits(text, f)
    {
      ListedMember(profiles, text);
      ExpandMeaning(text, f);
      AcceptsMeaning(text, f);
    }
    if f in Table(Published(profiles)) {
      var text :| text in Listed(profiles) && f in Expand(AdapterSpec(text));
      ListedMember(profiles, text);
      var i, j :| 0 <= i < |profiles| && 0 <= j < |profiles[i].frequencies| && profiles[i].frequencies[j] == text;
      assert EntryAt(profiles, i, j, text);
    }
    if Accepted(profiles, f) {
      var i, j :| 0 <= i < |profiles| && 0 <= j < |profiles[i].frequencies| &&
                  Accepts(RadioSpec(profiles[i].frequencies[j]), f);
      assert EntryAt(profiles, i, j, profiles[i].frequencies[j]);
    }
  }

  // An array element of a reply holds this entry: a string of the array under "frequencies" of an
  // object.
  predicate HoldsEntry(item: Json, text: string) {
    && item.Obj? && "frequencies" in item.fields
    && item.fields["frequencies"].Arr? && Str(text) in item.fields["frequencies"].items
  }

  // For any reply, whatever else it holds and in whatever order, the table has exactly the frequencies
  // its entries offer.
  lemma ReplyMeaning(items: seq<Json>, f: int)
    ensures f in Table(items) <==> exists i, text | 0 <= i < |items| :: HoldsEntry(items[i], text) && Offers(text, f)
  {
    hide Expand, AdapterSpec, Table, ReplyTexts, Offers, HoldsEntry;
    TableIsUnion(items);
    forall text ensures f in Expand(AdapterSpec(text)) <==> Offers(text, f) {
      ExpandMeaning(text, f);
    }
    forall text
      ensures text in ReplyTexts(items) <==> exists i | 0 <= i < |items| :: HoldsEntry(items[i], text)
    {
      ReplyTextsMember(items, text);
    }
  }

  lemma {:induction false} ReplyTextsMember(items: seq<Json>, text: string)
    ensures text in ReplyTexts(items) <==> exists i | 0 <= i < |items| :: HoldsEntry(items[i], text)
  {
    if items != [] {
      var n := |items| - 1;
      ReplyTextsMember(items[..n], text);
      EntryTextsMember(ProfileEntries(items[n]), text);
      assert forall i | 0 <= i < n :: items[..n][i] == items[i];
    }
  }

  lemma {:induction false} EntryTextsMember(entries: seq<Json>, text: string)
    ensures text in EntryTexts(entries) <==> Str(text) in entries
  {
    if entries != [] {
      EntryTextsMember(entries[..|entries| - 1], text);
    }
  }

  // ---- lookup ----

  // Frequencies a and b differ by less than 0.001 MHz.
  predicate Near(a: int, b: int) {
    -TOLERANCE < a - b < TOLERANCE
  }

  // The first channel within tolerance, counted from 1.
  function ChannelOf(table: seq<int>, f: int): (c: Option<int>)
    ensures c.Some? ==> 1 <= c.value <= |table| && Near(table[c.value - 1], f)
    ensures c.Some? ==> forall i | 0 <= i < c.value - 1 :: !Near(table[i], f)
    ensures c.None? ==> forall i | 0 <= i < |table| :: !Near(table[i], f)
  {
    if table == [] then None
    else if Near(table[0], f) then Some(1)
    else
      match ChannelOf(table[1..], f)
      case Some(c) => assert forall i | 1 <= i < |table| :: table[1..][i - 1] == table[i]; Some(c + 1)
      case None => assert forall i | 1 <= i < |table| :: table[1..][i - 1] == table[i]; None
  }

  method FindChannelIndex(table: seq<int>, frequency: int) returns (index: Option<int>)
    ensures index == ChannelOf(table, frequency)
  {
    var i := 0;
    while i < |table|
      invariant 0 <= i <= |table|
      invariant forall k | 0 <= k < i :: !Near(table[k], frequency)
    {
      if -TOLERANCE < table[i] - frequency < TOLERANCE {
        return Some(i + 1);
      }
      i := i + 1;
    }
    return None;
  }

  // Neighbouring channels are at least 0.001 MHz apart.
  predicate Spaced(table: seq<int>) {
    forall i | 0 < i < |table| :: table[i] - table[i - 1] >= TOLERANCE
  }

  // Looking up the frequency of channel i never gives a later channel, and gives i back exactly
  // when the channel below it is at least 0.001 MHz away.
  lemma LookupOwnFrequency(table: seq<int>, i: int)
    requires StrictlyIncreasing(table) && 1 <= i <= |table|
    ensures ChannelOf(table, table[i - 1]).Some?
    ensures ChannelOf(table, table[i - 1]).value <= i
    ensures ChannelOf(table, table[i - 1]).value == i
       <==> (i == 1 || table[i - 1] - table[i - 2] >= TOLERANCE)
  {
    hide ChannelOf;
    var c := ChannelOf(table, table[i - 1]);
    assert Near(table[i - 1], table[i - 1]);
    if i > 1 && c.value < i {
      assert table[c.value - 1] <= table[i - 2];
    }
  }
}
